/** Merged exchange ranges and the cut positions that split none of them. */
module SafeBoundaries {
  import opened ExchangeScan

  ghost predicate Ordered(ranges: seq<Range>) {
    forall k :: 0 <= k < |ranges| ==> ranges[k].assistant <= ranges[k].result
  }

  predicate Inside(r: Range, x: int) { r.assistant <= x <= r.result }

  ghost predicate Covers(ranges: seq<Range>, x: int) { exists k :: 0 <= k < |ranges| && Inside(ranges[k], x) }

  ghost predicate Within(r: Range, ranges: seq<Range>) {
    exists k :: 0 <= k < |ranges| && ranges[k].assistant <= r.assistant && r.result <= ranges[k].result
  }

  /** Consecutive ranges are disjoint and ascending. */
  ghost predicate Disjoint(ranges: seq<Range>) {
    && Ordered(ranges)
    && forall j, k :: 0 <= j < k < |ranges| ==> ranges[j].result < ranges[k].assistant
  }

  // ---- sorting: the library's stable sort by (assistant, result) ----

  predicate Before(a: Range, b: Range) {
    a.assistant < b.assistant || (a.assistant == b.assistant && a.result <= b.result)
  }

  ghost predicate Sorted(ranges: seq<Range>) {
    forall j, k :: 0 <= j < k < |ranges| ==> ranges[j].assistant <= ranges[k].assistant
  }

  function Insert(r: Range, ranges: seq<Range>): seq<Range> {
    if ranges == [] || Before(r, ranges[0]) then [r] + ranges else [ranges[0]] + Insert(r, ranges[1..])
  }

  function SortRanges(ranges: seq<Range>): seq<Range> {
    if ranges == [] then [] else Insert(ranges[0], SortRanges(ranges[1..]))
  }

  lemma {:induction false} InsertKeeps(r: Range, ranges: seq<Range>)
    ensures forall x :: x in Insert(r, ranges) <==> x == r || x in ranges
    ensures Sorted(ranges) ==> Sorted(Insert(r, ranges))
  {
    if ranges == [] || Before(r, ranges[0]) {
    } else {
      InsertKeeps(r, ranges[1..]);
      var rest := Insert(r, ranges[1..]);
      assert forall x :: x in ranges <==> x == ranges[0] || x in ranges[1..];
      if Sorted(ranges) {
        forall k | 0 <= k < |rest| ensures ranges[0].assistant <= rest[k].assistant {
          assert rest[k] in rest;
          if rest[k] != r {
            var j :| 0 <= j < |ranges[1..]| && ranges[1..][j] == rest[k];
            assert ranges[j + 1] == rest[k];
          }
        }
      }
    }
  }

  lemma {:induction false} SortKeeps(ranges: seq<Range>)
    ensures forall x :: x in SortRanges(ranges) <==> x in ranges
    ensures Sorted(SortRanges(ranges))
  {
    if ranges == [] {
    } else {
      SortKeeps(ranges[1..]);
      InsertKeeps(ranges[0], SortRanges(ranges[1..]));
      assert forall x :: x in ranges <==> x == ranges[0] || x in ranges[1..];
    }
  }

  // ---- merging ----

  function MergeInto(merged: seq<Range>, r: Range): seq<Range> {
    if merged != [] && r.assistant <= merged[|merged| - 1].result then
      var last := merged[|merged| - 1];
      if r.result > last.result then merged[|merged| - 1 := last.(result := r.result)] else merged
    else merged + [r]
  }

  function MergeSorted(ranges: seq<Range>): seq<Range> {
    if ranges == [] then [] else MergeInto(MergeSorted(ranges[..|ranges| - 1]), ranges[|ranges| - 1])
  }

  function MergedRanges(ranges: seq<Range>): seq<Range> {
    if |ranges| < 2 then ranges else MergeSorted(SortRanges(ranges))
  }

  lemma MergeIntoDisjoint(merged: seq<Range>, r: Range)
    requires Disjoint(merged) && r.assistant <= r.result
    requires merged != [] ==> merged[|merged| - 1].assistant <= r.assistant
    ensures Disjoint(MergeInto(merged, r)) && MergeInto(merged, r) != []
    ensures var m := MergeInto(merged, r); m[|m| - 1].assistant <= r.assistant && r.result <= m[|m| - 1].result
  {
  }

  lemma MergeIntoCovers(merged: seq<Range>, r: Range, x: int)
    requires r.assistant <= r.result
    requires merged != [] ==> merged[|merged| - 1].assistant <= r.assistant
    requires Ordered(merged)
    ensures Covers(MergeInto(merged, r), x) <==> Covers(merged, x) || Inside(r, x)
  {
    var m := MergeInto(merged, r);
    if Covers(merged, x) {
      var k :| 0 <= k < |merged| && Inside(merged[k], x);
      assert Inside(m[k], x);
    }
    if Inside(r, x) {
      assert Inside(m[|m| - 1], x);
    }
    if Covers(m, x) && !Inside(r, x) {
      var k :| 0 <= k < |m| && Inside(m[k], x);
      assert Inside(merged[k], x);
    }
  }

  lemma MergeIntoWithin(merged: seq<Range>, r: Range, q: Range)
    requires Within(q, merged) || (q == r && r.assistant <= r.result)
    requires merged != [] ==> merged[|merged| - 1].assistant <= r.assistant
    ensures Within(q, MergeInto(merged, r))
  {
    var m := MergeInto(merged, r);
    if Within(q, merged) {
      var k :| 0 <= k < |merged| && merged[k].assistant <= q.assistant && q.result <= merged[k].result;
      assert m[k].assistant <= q.assistant && q.result <= m[k].result;
    } else {
      assert m[|m| - 1].assistant <= q.assistant && q.result <= m[|m| - 1].result;
    }
  }

  lemma {:induction false} MergeSortedDisjoint(ranges: seq<Range>)
    requires Sorted(ranges) && Ordered(ranges)
    ensures var m := MergeSorted(ranges);
      && Disjoint(m)
      && (m == [] <==> ranges == [])
      && (ranges != [] ==> m[|m| - 1].assistant <= ranges[|ranges| - 1].assistant)
  {
    if ranges == [] {
    } else {
      var n := |ranges| - 1;
      MergeSortedDisjoint(ranges[..n]);
      MergeIntoDisjoint(MergeSorted(ranges[..n]), ranges[n]);
    }
  }

  /** What is merged so far begins no later than the next range. */
  lemma MergedFront(ranges: seq<Range>)
    requires Sorted(ranges) && Ordered(ranges) && ranges != []
    ensures var n := |ranges| - 1; var p := MergeSorted(ranges[..n]);
      && Sorted(ranges[..n]) && Ordered(ranges[..n]) && Ordered(p)
      && (p != [] ==> p[|p| - 1].assistant <= ranges[n].assistant)
      && MergeSorted(ranges) == MergeInto(p, ranges[n])
  {
    MergeSortedDisjoint(ranges[..|ranges| - 1]);
  }

  lemma CoversSnoc(ranges: seq<Range>, r: Range, x: int)
    ensures Covers(ranges + [r], x) <==> Covers(ranges, x) || Inside(r, x)
  {
    var all := ranges + [r];
    if Covers(ranges, x) {
      var k :| 0 <= k < |ranges| && Inside(ranges[k], x);
      assert Inside(all[k], x);
    }
    if Inside(r, x) { assert Inside(all[|ranges|], x); }
  }

  lemma {:induction false} MergeSortedCovers(ranges: seq<Range>, x: int)
    requires Sorted(ranges) && Ordered(ranges)
    ensures Covers(MergeSorted(ranges), x) <==> Covers(ranges, x)
  {
    if ranges == [] {
    } else {
      var n := |ranges| - 1;
      var front, last := ranges[..n], ranges[n];
      MergedFront(ranges);
      MergeSortedCovers(front, x);
      MergeIntoCovers(MergeSorted(front), last, x);
      CoversSnoc(front, last, x);
      assert ranges == front + [last];
    }
  }

  lemma {:induction false} MergeSortedWithin(ranges: seq<Range>, q: Range)
    requires Sorted(ranges) && Ordered(ranges) && q in ranges
    ensures Within(q, MergeSorted(ranges))
  {
    var n := |ranges| - 1;
    var front, last := ranges[..n], ranges[n];
    MergedFront(ranges);
    if q in front {
      MergeSortedWithin(front, q);
    } else {
      assert q == last;
    }
    MergeIntoWithin(MergeSorted(front), last, q);
  }

  lemma CoversSame(a: seq<Range>, b: seq<Range>, x: int)
    requires forall r :: r in a ==> r in b
    ensures Covers(a, x) ==> Covers(b, x)
  {
    if Covers(a, x) {
      var k :| 0 <= k < |a| && Inside(a[k], x);
      assert a[k] in b;
      var j :| 0 <= j < |b| && b[j] == a[k];
      assert Inside(b[j], x);
    }
  }

  /** Merging keeps the covered integers and yields ascending disjoint ranges that
      each hold the originals whole. */
  lemma MergingIsSound(ranges: seq<Range>)
    requires Ordered(ranges)
    ensures Disjoint(MergedRanges(ranges))
    ensures forall x: int :: Covers(MergedRanges(ranges), x) <==> Covers(ranges, x)
    ensures forall q :: q in ranges ==> Within(q, MergedRanges(ranges))
  {
    if |ranges| < 2 {
      forall q | q in ranges ensures Within(q, ranges) { assert q == ranges[0]; }
    } else {
      var s := SortRanges(ranges);
      SortKeeps(ranges);
      forall k | 0 <= k < |s| ensures s[k].assistant <= s[k].result { assert s[k] in ranges; }
      MergeSortedDisjoint(s);
      forall q | q in ranges ensures Within(q, MergedRanges(ranges)) { MergeSortedWithin(s, q); }
      forall x: int ensures Covers(MergedRanges(ranges), x) <==> Covers(ranges, x) {
        MergeSortedCovers(s, x);
        CoversSame(s, ranges, x);
        CoversSame(ranges, s, x);
      }
    }
  }

  lemma MergedInBounds(ranges: seq<Range>, n: nat)
    requires Ordered(ranges) && forall k :: 0 <= k < |ranges| ==> ranges[k].result < n
    ensures forall k :: 0 <= k < |MergedRanges(ranges)| ==> MergedRanges(ranges)[k].result < n
  {
    MergingIsSound(ranges);
    var m := MergedRanges(ranges);
    forall k | 0 <= k < |m| ensures m[k].result < n {
      assert Inside(m[k], m[k].result);
      assert Covers(m, m[k].result);
    }
  }

  /** `mergeToolExchangeRanges`. */
  method MergeToolExchangeRanges(ranges: seq<Range>) returns (merged: seq<Range>)
    ensures merged == MergedRanges(ranges)
  {
    if |ranges| < 2 {
      return ranges;
    }
    var sorted := SortRanges(ranges);
    merged := [];
    for i := 0 to |sorted|
      invariant merged == MergeSorted(sorted[..i])
    {
      assert sorted[..i + 1][..i] == sorted[..i];
      var r, last := sorted[i], |merged| - 1;
      if last >= 0 && r.assistant <= merged[last].result {
        if r.result > merged[last].result {
          merged := merged[last := merged[last].(result := r.result)];
        }
      } else {
        merged := merged + [r];
      }
    }
    assert sorted[..|sorted|] == sorted;
  }

  // ---- safe cuts ----

  /** A cut after position `cut` would separate an assistant message from its results. */
  ghost predicate Splits(r: Range, cut: int) { r.assistant <= cut < r.result }

  ghost predicate SafeCut(ranges: seq<Range>, cut: int) {
    forall k :: 0 <= k < |ranges| ==> !Splits(ranges[k], cut)
  }

  /** Starting at `start` keeps every exchange whole. */
  ghost predicate SafeStart(ranges: seq<Range>, start: int) { SafeCut(ranges, start - 1) }

  /** `exchangeSafeCutoff` stops, at the greatest safe cut at or below the request. */
  method ExchangeSafeCutoff(ranges: seq<Range>, request: int) returns (cutoff: int)
    requires request >= -1
    ensures -1 <= cutoff <= request && SafeCut(ranges, cutoff)
    ensures forall c :: c <= request && SafeCut(ranges, c) ==> c <= cutoff
  {
    cutoff := request;
    while true
      invariant -1 <= cutoff <= request
      invariant forall c :: c <= request && SafeCut(ranges, c) ==> c <= cutoff
      decreases cutoff
    {
      var adjusted := cutoff;
      for k := 0 to |ranges|
        invariant -1 <= adjusted <= cutoff
        invariant adjusted == cutoff ==> forall j :: 0 <= j < k ==> !Splits(ranges[j], cutoff)
        invariant forall c :: c <= request && SafeCut(ranges, c) ==> c <= adjusted
      {
        if ranges[k].assistant <= adjusted < ranges[k].result {
          forall c | c <= request && SafeCut(ranges, c) ensures c <= ranges[k].assistant - 1 {
            assert !Splits(ranges[k], c);
          }
          adjusted := ranges[k].assistant - 1;
        }
      }
      if adjusted == cutoff {
        return;
      }
      cutoff := adjusted;
    }
  }

  /** `exchangeSafeStart`: one pass over merged ranges finds the least start at or
      above the request whose preceding cut is safe. */
  method ExchangeSafeStart(ranges: seq<Range>, request: nat) returns (start: nat)
    requires Disjoint(ranges)
    ensures request <= start && SafeStart(ranges, start)
    ensures forall s :: request <= s && SafeStart(ranges, s) ==> start <= s
  {
    start := request;
    for k := 0 to |ranges|
      invariant request <= start
      invariant forall j :: 0 <= j < k ==> !Splits(ranges[j], start - 1)
      invariant forall j :: k <= j < |ranges| ==> start == request || start <= ranges[j].assistant
      invariant forall s :: request <= s && SafeStart(ranges, s) ==> start <= s
    {
      if ranges[k].assistant < start <= ranges[k].result {
        forall s | request <= s && SafeStart(ranges, s) ensures ranges[k].result + 1 <= s {
          assert !Splits(ranges[k], s - 1);
        }
        start := ranges[k].result + 1;
      }
    }
  }

  // ---- event groups ----

  /** The stretch of events that travels with event `i`. */
  function GroupOf(ranges: seq<Range>, i: nat): Range {
    if ranges == [] then Range(i, i)
    else
      var last := ranges[|ranges| - 1];
      if last.assistant <= i <= last.result then last else GroupOf(ranges[..|ranges| - 1], i)
  }

  lemma {:induction false} GroupOfFacts(ranges: seq<Range>, i: nat)
    ensures Inside(GroupOf(ranges, i), i)
    ensures GroupOf(ranges, i) in ranges || GroupOf(ranges, i) == Range(i, i)
    ensures Covers(ranges, i) ==> GroupOf(ranges, i) in ranges
  {
    if ranges == [] {
    } else {
      var n := |ranges| - 1;
      GroupOfFacts(ranges[..n], i);
      assert GroupOf(ranges[..n], i) in ranges[..n] ==> GroupOf(ranges[..n], i) in ranges;
    }
  }

  /** All members of a group have the same group. */
  lemma GroupsAgree(ranges: seq<Range>, i: nat, j: nat)
    requires Disjoint(ranges) && Inside(GroupOf(ranges, i), j)
    ensures GroupOf(ranges, j) == GroupOf(ranges, i)
  {
    GroupOfFacts(ranges, i);
    GroupOfFacts(ranges, j);
    var g := GroupOf(ranges, i);
    if g in ranges {
      var k :| 0 <= k < |ranges| && ranges[k] == g;
      assert Inside(ranges[k], j);
      assert Covers(ranges, j);
    }
  }

  /** `eventGroups`: every exchange writes its range over the slots it spans. */
  method EventGroups(count: nat, exchanges: seq<Range>) returns (groups: array<Range>)
    requires forall k :: 0 <= k < |exchanges| ==> exchanges[k].result < count
    ensures fresh(groups) && groups.Length == count
    ensures forall i: nat :: i < count ==> groups[i] == GroupOf(exchanges, i)
  {
    groups := new Range[count](i requires 0 <= i => Range(i, i));
    for k := 0 to |exchanges|
      invariant forall i: nat :: i < count ==> groups[i] == GroupOf(exchanges[..k], i)
    {
      var g := exchanges[k];
      assert exchanges[..k + 1][..k] == exchanges[..k];
      var index := g.assistant;
      while index <= g.result
        invariant g.assistant <= index
        invariant index <= g.result + 1 || index == g.assistant
        invariant forall i: nat :: i < count ==>
          groups[i] == if g.assistant <= i < index && i <= g.result then g else GroupOf(exchanges[..k], i)
      {
        groups[index] := g;
        index := index + 1;
      }
    }
    assert exchanges[..|exchanges|] == exchanges;
  }
}
