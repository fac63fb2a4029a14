/** Projection store: a transaction-atomic fold of a journal with paging, a head cache
    and point reads. */
module Projection {
  import opened Journals
  import opened Sequences
  import opened Commits
  import opened CommitLogs

  /** A pure projector over states `T`; `digest` seals a snapshot. */
  datatype Projector<!T> = Projector(
    version: nat, zero: JournalRef -> T, apply: (T, Record) -> Option<T>, digest: (nat, Option<Cursor>, T) -> string)

  datatype Snapshot<T> = Snapshot(version: nat, head: Option<Cursor>, state: T, digest: string)

  function Seal<T>(p: Projector<T>, head: Option<Cursor>, state: T): Snapshot<T> {
    Snapshot(p.version, head, state, p.digest(p.version, head, state))
  }

  predicate ValidSnapshot<T>(p: Projector<T>, s: Snapshot<T>) {
    s.version != 0 && s.head.Some? && s.head.value.Valid() && s.digest == p.digest(s.version, s.head, s.state)
  }

  // ---- the plain fold ----

  function FoldRecords<T>(p: Projector<T>, state: T, records: seq<Record>): Option<T> {
    if records == [] then Some(state)
    else match FoldRecords(p, state, records[..|records| - 1])
      case None => None
      case Some(s) => p.apply(s, records[|records| - 1])
  }

  /** How far a fold got, and the state it reached there. */
  datatype Progress<T> = Progress(state: T, done: nat)

  /** Transactions apply whole or not at all; the first failing one stops the fold. */
  function Fold<T>(p: Projector<T>, state: T, txns: seq<Transaction>): (r: Progress<T>)
    ensures r.done <= |txns|
  {
    if txns == [] then Progress(state, 0)
    else
      var n := |txns| - 1;
      var before := Fold(p, state, txns[..n]);
      if before.done < n then before
      else match FoldRecords(p, before.state, txns[n])
        case None => before
        case Some(s) => Progress(s, n + 1)
  }

  /** The snapshot of a journal's first `k` transactions. */
  function SnapshotAt<T>(p: Projector<T>, ref: JournalRef, txns: seq<Transaction>, k: nat): Snapshot<T>
    requires k <= |txns|
  {
    Seal(p, HeadAt(ref, txns, k), Fold(p, p.zero(ref), txns[..k]).state)
  }

  /** The snapshot of the whole journal, or of what precedes its first failing transaction. */
  function Projected<T>(p: Projector<T>, ref: JournalRef, txns: seq<Transaction>): Snapshot<T> {
    SnapshotAt(p, ref, txns, Fold(p, p.zero(ref), txns).done)
  }

  predicate Folds<T>(p: Projector<T>, ref: JournalRef, txns: seq<Transaction>, k: nat)
    requires k <= |txns|
  {
    Fold(p, p.zero(ref), txns[..k]).done == k
  }

  /** Folding in two parts is folding once, wherever the cut falls. */
  lemma {:induction false} FoldSplits<T>(p: Projector<T>, s: T, a: seq<Transaction>, b: seq<Transaction>)
    ensures var first := Fold(p, s, a);
      Fold(p, s, a + b) ==
        if first.done < |a| then first
        else var second := Fold(p, first.state, b); Progress(second.state, |a| + second.done)
  {
    if b == [] {
      assert a + b == a;
    } else {
      var n := |b| - 1;
      FoldSplits(p, s, a, b[..n]);
      assert (a + b)[..|a| + n] == a + b[..n] && (a + b)[|a| + n] == b[n];
    }
  }

  lemma {:induction false} ZeroDone<T>(p: Projector<T>, s: T, txns: seq<Transaction>)
    requires Fold(p, s, txns).done == 0
    ensures Fold(p, s, txns).state == s
  {
    if txns == [] {
    } else {
      ZeroDone(p, s, txns[..|txns| - 1]);
    }
  }

  /** A fold reports exactly the state of the transactions it completed. */
  lemma FoldIsPrefix<T>(p: Projector<T>, s: T, txns: seq<Transaction>, k: nat)
    requires k <= |txns|
    ensures k <= Fold(p, s, txns).done ==> Fold(p, s, txns[..k]).done == k
    ensures k == Fold(p, s, txns).done ==> Fold(p, s, txns[..k]).state == Fold(p, s, txns).state
    ensures Fold(p, s, txns).done < k ==> Fold(p, s, txns[..k]) == Fold(p, s, txns)
  {
    assert txns[..k] + txns[k..] == txns;
    FoldSplits(p, s, txns[..k], txns[k..]);
    if Fold(p, s, txns[..k]).done == k && Fold(p, Fold(p, s, txns[..k]).state, txns[k..]).done == 0 {
      ZeroDone(p, Fold(p, s, txns[..k]).state, txns[k..]);
    }
  }

  /** Resuming from the snapshot at any boundary reaches what a rebuild reaches. */
  lemma IncrementalIsRebuild<T>(p: Projector<T>, ref: JournalRef, txns: seq<Transaction>, k: nat)
    requires k <= |txns| && Folds(p, ref, txns, k)
    ensures var rest := Fold(p, SnapshotAt(p, ref, txns, k).state, txns[k..]);
      && Fold(p, p.zero(ref), txns) == Progress(rest.state, k + rest.done)
      && Projected(p, ref, txns) == Seal(p, HeadAt(ref, txns, k + rest.done), rest.state)
  {
    assert txns[..k] + txns[k..] == txns;
    FoldSplits(p, p.zero(ref), txns[..k], txns[k..]);
    FoldIsPrefix(p, p.zero(ref), txns, Fold(p, p.zero(ref), txns).done);
  }

  // ---- applying a page ----

  datatype ApplyFault = ProjectFailed | BadTransaction | NotAdvancing

  datatype Applied<T> = Applied(state: T, head: Option<Cursor>, fault: Option<ApplyFault>)

  function ApplyOne<T>(p: Projector<T>, ref: JournalRef, before: Applied<T>, chunk: Transaction): Applied<T> {
    match FoldRecords(p, before.state, chunk)
    case None => before.(fault := Some(ProjectFailed))
    case Some(s) =>
      match TransactionCursor(ref, chunk)
      case None => before.(fault := Some(BadTransaction))
      case Some(c) =>
        if before.head.Some? && c.commitSeq <= before.head.value.commitSeq then before.(fault := Some(NotAdvancing))
        else Applied(s, Some(c), None)
  }

  /** The specification of one page, for any records at all. */
  function ApplyChunks<T>(p: Projector<T>, ref: JournalRef, start: Applied<T>, chunks: seq<Transaction>): Applied<T> {
    if chunks == [] then start
    else
      var before := ApplyChunks(p, ref, start, chunks[..|chunks| - 1]);
      if before.fault.Some? then before else ApplyOne(p, ref, before, chunks[|chunks| - 1])
  }

  lemma {:induction false} FaultSticks<T>(p: Projector<T>, ref: JournalRef, start: Applied<T>,
          chunks: seq<Transaction>, i: nat)
    requires i <= |chunks| && ApplyChunks(p, ref, start, chunks[..i]).fault.Some?
    ensures ApplyChunks(p, ref, start, chunks) == ApplyChunks(p, ref, start, chunks[..i])
  {
    if i < |chunks| {
      assert chunks[..|chunks| - 1][..i] == chunks[..i];
      FaultSticks(p, ref, start, chunks[..|chunks| - 1], i);
    } else {
      assert chunks[..i] == chunks;
    }
  }

  lemma {:induction false} FoldFailSticks<T>(p: Projector<T>, state: T, records: seq<Record>, i: nat)
    requires i <= |records| && FoldRecords(p, state, records[..i]).None?
    ensures FoldRecords(p, state, records).None?
  {
    if i < |records| {
      assert records[..|records| - 1][..i] == records[..i];
      FoldFailSticks(p, state, records[..|records| - 1], i);
    } else {
      assert records[..i] == records;
    }
  }

  method ApplyTransaction<T>(p: Projector<T>, state: T, records: seq<Record>) returns (candidate: Option<T>)
    ensures candidate == FoldRecords(p, state, records)
  {
    var s := state;
    for i := 0 to |records|
      invariant FoldRecords(p, state, records[..i]) == Some(s)
    {
      assert records[..i + 1][..i] == records[..i];
      var next := p.apply(s, records[i]);
      if next.None? {
        FoldFailSticks(p, state, records, i + 1);
        return None;
      }
      s := next.value;
    }
    assert records[..|records|] == records;
    return Some(s);
  }

  method FirstRunEnd(records: seq<Record>, start: nat) returns (end: nat)
    requires start < |records|
    ensures start < end <= |records| && Chunks(records[start..]) == [records[start..end]] + Chunks(records[end..])
  {
    end := start + 1;
    while end < |records| && Same(records[start], records[end])
      invariant start < end <= |records|
      invariant forall k :: 1 <= k < end - start ==> Same(records[start..][0], records[start..][k])
    {
      end := end + 1;
    }
    RunEndIs(records[start..], 1, end - start);
    assert records[start..][..end - start] == records[start..end] && records[start..][end - start..] == records[end..];
  }

  lemma NextChunk<T>(p: Projector<T>, ref: JournalRef, first: Applied<T>, done: seq<Transaction>, chunk: Transaction,
          rest: seq<Transaction>)
    requires ApplyChunks(p, ref, first, done).fault.None?
    ensures ApplyChunks(p, ref, first, done + [chunk]) == ApplyOne(p, ref, ApplyChunks(p, ref, first, done), chunk)
    ensures done + ([chunk] + rest) == done + [chunk] + rest
    ensures var next := ApplyOne(p, ref, ApplyChunks(p, ref, first, done), chunk);
      next.fault.Some? ==> ApplyChunks(p, ref, first, done + ([chunk] + rest)) == next
  {
    var i := |done| + 1;
    assert (done + [chunk])[..|done|] == done;
    assert (done + ([chunk] + rest))[..i] == done + [chunk];
    if ApplyChunks(p, ref, first, done + [chunk]).fault.Some? {
      FaultSticks(p, ref, first, done + ([chunk] + rest), i);
    }
  }

  /** `applyCommittedTransactions`. */
  method ApplyCommitted<T>(p: Projector<T>, ref: JournalRef, initial: T, initialHead: Option<Cursor>,
          records: seq<Record>)
    returns (r: Applied<T>)
    ensures r == ApplyChunks(p, ref, Applied(initial, initialHead, None), Chunks(records))
  {
    r := Applied(initial, initialHead, None);
    ghost var first := r;
    ghost var done: seq<Transaction> := [];
    ghost var all := Chunks(records);
    var start := 0;
    assert records[0..] == records;
    while start < |records|
      invariant 0 <= start <= |records| && all == done + Chunks(records[start..])
      invariant r.fault.None? && r == ApplyChunks(p, ref, first, done)
    {
      var end := FirstRunEnd(records, start);
      ghost var chunk := records[start..end];
      NextChunk(p, ref, first, done, chunk, Chunks(records[end..]));
      var candidate := ApplyTransaction(p, r.state, records[start..end]);
      if candidate.None? {
        return r.(fault := Some(ProjectFailed));
      }
      var cursor := CommittedTransactionCursor(ref, records[start..end]);
      if cursor.None? {
        return r.(fault := Some(BadTransaction));
      }
      if r.head.Some? && cursor.value.commitSeq <= r.head.value.commitSeq {
        return r.(fault := Some(NotAdvancing));
      }
      r := Applied(candidate.value, cursor, None);
      start, done := end, done + [chunk];
    }
    assert done + [] == done;
  }

  ghost predicate SameReach<T>(ref: JournalRef, txns: seq<Transaction>, k: nat, m: nat, r: Applied<T>, f: Progress<T>)
    requires k <= m <= |txns|
  {
    && k + f.done <= m
    && r.state == f.state && r.head == HeadAt(ref, txns, k + f.done)
    && (r.fault.None? <==> f.done == m - k) && (r.fault.Some? ==> r.fault.value == ProjectFailed)
  }

  lemma NextTransaction<T>(p: Projector<T>, ref: JournalRef, txns: seq<Transaction>, k: nat, m: nat, r: Applied<T>)
    requires WellFormed(ref, txns) && k < m <= |txns| && r.fault.None? && r.head == HeadAt(ref, txns, m - 1)
    ensures var next := ApplyOne(p, ref, r, txns[m - 1]);
      next == match FoldRecords(p, r.state, txns[m - 1])
        case None => r.(fault := Some(ProjectFailed))
        case Some(s) => Applied(s, HeadAt(ref, txns, m), None)
  {
    HeadsAscend(ref, txns, m - 1, m);
  }

  lemma PageSnoc<T>(p: Projector<T>, ref: JournalRef, start: Applied<T>, txns: seq<Transaction>, k: nat, m: nat)
    requires k < m <= |txns|
    ensures var before := ApplyChunks(p, ref, start, txns[k..m - 1]);
      ApplyChunks(p, ref, start, txns[k..m]) ==
        if before.fault.Some? then before else ApplyOne(p, ref, before, txns[m - 1])
  {
    var page := txns[k..m];
    assert page[..|page| - 1] == txns[k..m - 1] && page[|page| - 1] == txns[m - 1];
  }

  lemma FoldSnoc<T>(p: Projector<T>, s: T, txns: seq<Transaction>, k: nat, m: nat)
    requires k < m <= |txns|
    ensures var before := Fold(p, s, txns[k..m - 1]);
      Fold(p, s, txns[k..m]) ==
        if before.done < m - 1 - k then before
        else match FoldRecords(p, before.state, txns[m - 1]) {
          case None => before
          case Some(next) => Progress(next, m - k)
        }
  {
    var page := txns[k..m];
    assert page[..|page| - 1] == txns[k..m - 1] && page[|page| - 1] == txns[m - 1];
  }

  /** One transaction more keeps page and fold together. */
  lemma SameReachStep<T>(p: Projector<T>, ref: JournalRef, txns: seq<Transaction>, k: nat, m: nat, r: Applied<T>,
          f: Progress<T>)
    requires WellFormed(ref, txns) && k < m <= |txns| && SameReach(ref, txns, k, m - 1, r, f)
    ensures SameReach(ref, txns, k, m,
        if r.fault.Some? then r else ApplyOne(p, ref, r, txns[m - 1]),
        if f.done < m - 1 - k then f
        else match FoldRecords(p, f.state, txns[m - 1]) {
          case None => f
          case Some(next) => Progress(next, m - k)
        })
  {
    if r.fault.None? { NextTransaction(p, ref, txns, k, m, r); }
  }

  /** On committed transactions a page is the plain fold. */
  lemma {:induction false} PageIsFold<T>(p: Projector<T>, ref: JournalRef, txns: seq<Transaction>, k: nat, m: nat, s: T)
    requires WellFormed(ref, txns) && k <= m <= |txns|
    ensures SameReach(ref, txns, k, m, ApplyChunks(p, ref, Applied(s, HeadAt(ref, txns, k), None), txns[k..m]),
        Fold(p, s, txns[k..m]))
  {
    var start := Applied(s, HeadAt(ref, txns, k), None);
    if k == m {
      assert txns[k..m] == [];
    } else {
      PageIsFold(p, ref, txns, k, m - 1, s);
      PageSnoc(p, ref, start, txns, k, m);
      FoldSnoc(p, s, txns, k, m);
      SameReachStep(p, ref, txns, k, m, ApplyChunks(p, ref, start, txns[k..m - 1]), Fold(p, s, txns[k..m - 1]));
    }
  }
}
