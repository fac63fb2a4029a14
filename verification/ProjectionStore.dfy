/** The store around the fold: rebuild, paged update, cached load and point reads. */
module ProjectionStore {
  import opened Journals
  import opened Sequences
  import opened Commits
  import opened CommitLogs
  import opened Projection

  class MemoryCache<T> {
    var snapshots: map<JournalRef, Snapshot<T>>

    constructor ()
      ensures snapshots == map[]
    {
      snapshots := map[];
    }

    method Load(ref: JournalRef) returns (s: Option<Snapshot<T>>)
      ensures s == if ref in snapshots then Some(snapshots[ref]) else None
    {
      s := if ref in snapshots then Some(snapshots[ref]) else None;
    }

    method Store(ref: JournalRef, s: Snapshot<T>)
      requires ref.Valid()
      modifies this
      ensures snapshots == old(snapshots)[ref := s]
    {
      snapshots := snapshots[ref := s];
    }

    method Delete(ref: JournalRef)
      modifies this
      ensures snapshots == old(snapshots) - {ref}
    {
      snapshots := snapshots - {ref};
    }
  }

  datatype StoreError = BadVersion | BadSnapshot | BadTarget | UnknownCursor | NotABoundary | Unprojectable | Stuck

  /** `held` is what an update leaves its caller with when it fails. */
  datatype Outcome<T> = Complete(snapshot: Snapshot<T>) | ReadOnlyPrefix(snapshot: Snapshot<T>)
    | Failed(error: StoreError)

  /** A cached snapshot `Load` would trust. */
  predicate Usable<T>(p: Projector<T>, ref: JournalRef, s: Snapshot<T>) {
    s.version == p.version && ValidSnapshot(p, s) && s.head.value.journal == ref
  }

  /** The projector's own seal is on the snapshot, and it stands at a cursor. */
  ghost predicate Sealed<T>(p: Projector<T>, s: Snapshot<T>) {
    && s.version == p.version && s.version > 0 && s.digest == p.digest(p.version, s.head, s.state)
    && s.head.Some? && s.head.value.journal.id != "" && s.head.value.commitSeq > 0 && s.head.value.txn != ""
  }

  ghost predicate IsSnapshotAt<T>(p: Projector<T>, ref: JournalRef, txns: seq<Transaction>, s: Snapshot<T>, k: nat) {
    k <= |txns| && Folds(p, ref, txns, k) && s == SnapshotAt(p, ref, txns, k)
  }

  /** A trusted snapshot is the fold of some committed prefix. */
  ghost predicate Honest<T>(p: Projector<T>, ref: JournalRef, txns: seq<Transaction>, s: Snapshot<T>) {
    Usable(p, ref, s) ==> exists k: nat :: IsSnapshotAt(p, ref, txns, s, k)
  }

  lemma StaysSnapshotAt<T>(p: Projector<T>, ref: JournalRef, txns: seq<Transaction>, later: seq<Transaction>,
          s: Snapshot<T>, k: nat)
    requires IsSnapshotAt(p, ref, txns, s, k) && txns <= later
    ensures IsSnapshotAt(p, ref, later, s, k)
  {
    assert later[..k] == txns[..k];
  }

  lemma StaysHonest<T>(p: Projector<T>, ref: JournalRef, txns: seq<Transaction>, later: seq<Transaction>,
          s: Snapshot<T>)
    requires Honest(p, ref, txns, s) && txns <= later
    ensures Honest(p, ref, later, s)
  {
    if Usable(p, ref, s) {
      var k: nat :| IsSnapshotAt(p, ref, txns, s, k);
      StaysSnapshotAt(p, ref, txns, later, s, k);
    }
  }

  /** Where a fold of `txns[k..]` from `s` ends, once `txns[k..j]` completed and the page
      `txns[j..m]` was folded from there. */
  lemma PageReach<T>(p: Projector<T>, s: T, txns: seq<Transaction>, k: nat, j: nat, m: nat)
    requires k <= j <= m <= |txns| && Fold(p, s, txns[k..j]).done == j - k
    ensures var page := Fold(p, Fold(p, s, txns[k..j]).state, txns[j..m]);
      && Fold(p, s, txns[k..m]) == Progress(page.state, j - k + page.done)
      && (page.done < m - j ==> Fold(p, s, txns[k..]) == Progress(page.state, j - k + page.done))
  {
    assert txns[k..j] + txns[j..m] == txns[k..m] && txns[k..m] + txns[m..] == txns[k..];
    FoldSplits(p, s, txns[k..j], txns[j..m]);
    FoldSplits(p, s, txns[k..m], txns[m..]);
  }

  /** The snapshot at a boundary a point read asks for. */
  function PointRead<T>(p: Projector<T>, ref: JournalRef, txns: seq<Transaction>, target: Cursor): Option<Snapshot<T>> {
    if txns == [] then None
    else if HeadAt(ref, txns, |txns|) == Some(target) then
      if Folds(p, ref, txns, |txns|) then Some(SnapshotAt(p, ref, txns, |txns|)) else None
    else PointRead(p, ref, txns[..|txns| - 1], target)
  }

  /** A point read at a boundary is unchanged by whatever is committed afterwards. */
  lemma {:induction false} PointReadAt<T>(p: Projector<T>, ref: JournalRef, txns: seq<Transaction>, k: nat)
    requires WellFormed(ref, txns) && 1 <= k <= |txns| && HeadAt(ref, txns, k).Some?
    ensures PointRead(p, ref, txns, HeadAt(ref, txns, k).value) ==
      if Folds(p, ref, txns, k) then Some(SnapshotAt(p, ref, txns, k)) else None
  {
    var n := |txns|;
    HeadsDiffer(ref, txns, k, n);
    if k < n {
      var before := txns[..n - 1];
      SliceWellFormed(ref, txns, 0, n - 1);
      assert txns[0..n - 1] == before && before[..k] == txns[..k];
      PointReadAt(p, ref, before, k);
    } else {
      assert txns[..k] == txns;
    }
  }

  lemma {:induction false} PointReadNowhere<T>(p: Projector<T>, ref: JournalRef, txns: seq<Transaction>, target: Cursor)
    requires forall i :: 0 <= i < |txns| ==> TransactionCursor(ref, txns[i]) != Some(target)
    ensures PointRead(p, ref, txns, target) == None
  {
    if txns == [] {
    } else {
      PointReadNowhere(p, ref, txns[..|txns| - 1], target);
    }
  }

  /** A completed snapshot is stored; anything else leaves the cache alone. */
  function CacheAfter<T>(before: map<JournalRef, Snapshot<T>>, ref: JournalRef,
          o: Outcome<T>): map<JournalRef, Snapshot<T>>
  {
    if o.Complete? then before[ref := o.snapshot] else before
  }

  /** Folding every record of a journal from zero. */
  lemma FromZero<T>(p: Projector<T>, ref: JournalRef, txns: seq<Transaction>)
    requires WellFormed(ref, txns)
    ensures var r := ApplyChunks(p, ref, Applied(p.zero(ref), None, None), Chunks(FlattenFront(txns)));
      && Seal(p, r.head, r.state) == Projected(p, ref, txns)
      && (r.fault.None? <==> Folds(p, ref, txns, |txns|))
      && (r.fault.None? ==>
        r.head == HeadAt(ref, txns, |txns|) && IsSnapshotAt(p, ref, txns, Seal(p, r.head, r.state), |txns|))
  {
    ChunksRecover(ref, txns);
    assert txns[0..|txns|] == txns && txns[..|txns|] == txns;
    PageIsFold(p, ref, txns, 0, |txns|, p.zero(ref));
    FoldIsPrefix(p, p.zero(ref), txns, Fold(p, p.zero(ref), txns).done);
  }

  /** An update that resumed at `k` from state `s`. */
  ghost predicate Reached<T>(p: Projector<T>, ref: JournalRef, txns: seq<Transaction>, k: nat, s: T, o: Outcome<T>)
    requires k <= |txns| && !o.Failed?
  {
    var f := Fold(p, s, txns[k..]);
    && o.snapshot == Seal(p, HeadAt(ref, txns, k + f.done), f.state)
    && (o.Complete? <==> k + f.done == |txns|)
  }

  /** Between pages: the update holds the fold of `txns[k..j]`. */
  ghost predicate UpdatedTo<T>(p: Projector<T>, ref: JournalRef, txns: seq<Transaction>, k: nat, j: nat, s: T,
          updated: Snapshot<T>)
    requires k <= j <= |txns|
  {
    && Fold(p, s, txns[k..j]).done == j - k
    && updated == Seal(p, HeadAt(ref, txns, j), Fold(p, s, txns[k..j]).state)
  }

  lemma PageFolded<T>(p: Projector<T>, ref: JournalRef, txns: seq<Transaction>, j: nat, m: nat, s: T)
    requires WellFormed(ref, txns) && j <= m <= |txns|
    ensures SameReach(ref, txns, j, m,
      ApplyChunks(p, ref, Applied(s, HeadAt(ref, txns, j), None), Chunks(FlattenFront(txns[j..m]))),
      Fold(p, s, txns[j..m]))
  {
    SliceWellFormed(ref, txns, j, m);
    ChunksRecover(ref, txns[j..m]);
    PageIsFold(p, ref, txns, j, m, s);
  }

  lemma PageHalts<T>(p: Projector<T>, ref: JournalRef, txns: seq<Transaction>, k: nat, j: nat, m: nat, s: T,
          r: Applied<T>)
    requires k <= j <= m <= |txns| && Fold(p, s, txns[k..j]).done == j - k
    requires SameReach(ref, txns, j, m, r, Fold(p, Fold(p, s, txns[k..j]).state, txns[j..m]))
    ensures r.fault.Some? ==> Reached(p, ref, txns, k, s, ReadOnlyPrefix(Seal(p, r.head, r.state)))
    ensures r.fault.None? ==>
      r.head == HeadAt(ref, txns, m) && UpdatedTo(p, ref, txns, k, m, s, Seal(p, r.head, r.state))
  {
    PageReach(p, s, txns, k, j, m);
  }

  lemma PageApplied<T>(p: Projector<T>, ref: JournalRef, txns: seq<Transaction>, k: nat, j: nat, m: nat, s: T,
          updated: Snapshot<T>)
    requires WellFormed(ref, txns) && k <= j <= m <= |txns| && UpdatedTo(p, ref, txns, k, j, s, updated)
    ensures var r := ApplyChunks(p, ref, Applied(updated.state, updated.head, None), Chunks(FlattenFront(txns[j..m])));
      && (r.fault.Some? ==> Reached(p, ref, txns, k, s, ReadOnlyPrefix(Seal(p, r.head, r.state))))
      && (r.fault.None? ==>
        r.head == HeadAt(ref, txns, m) && UpdatedTo(p, ref, txns, k, m, s, Seal(p, r.head, r.state)))
  {
    PageFolded(p, ref, txns, j, m, updated.state);
    PageHalts(p, ref, txns, k, j, m, s,
        ApplyChunks(p, ref, Applied(updated.state, updated.head, None), Chunks(FlattenFront(txns[j..m]))));
  }

  lemma PageAdvances(ref: JournalRef, txns: seq<Transaction>, j: nat, m: nat)
    requires WellFormed(ref, txns) && j <= m <= |txns|
    ensures FlattenFront(txns[j..m]) == [] <==> j == m
    ensures j < m ==> HeadAt(ref, txns, m).Some? && HeadAt(ref, txns, m).value.Valid()
    ensures j < m ==> HeadAt(ref, txns, m).value.journal == ref
    ensures 0 < j < m ==>
      HeadAt(ref, txns, j).Some? && HeadAt(ref, txns, j).value.commitSeq < HeadAt(ref, txns, m).value.commitSeq
  {
    if j < m {
      HeadsAscend(ref, txns, j, m);
      SliceWellFormed(ref, txns, j, m);
      RecordsAscend(ref, txns[j..m]);
    }
  }

  ghost predicate Resumed<T>(p: Projector<T>, ref: JournalRef, txns: seq<Transaction>, k: nat, j: nat,
          current: Snapshot<T>, updated: Snapshot<T>)
    requires k <= j <= |txns|
  {
    && CommittedHead(ref, txns, current.head) && CommittedHead(ref, txns, updated.head)
    && current.head == HeadAt(ref, txns, k) && updated.head == HeadAt(ref, txns, j)
    && UpdatedTo(p, ref, txns, k, j, current.state, updated)
  }

  datatype PageStep<T> = Advanced(updated: Snapshot<T>) | Halted(outcome: Outcome<T>)

  /** One page of an update. */
  method ApplyPage<T>(p: Projector<T>, ref: JournalRef, updated: Snapshot<T>, page: Page,
          ghost txns: seq<Transaction>, ghost k: nat, ghost j: nat, ghost m: nat, ghost current: Snapshot<T>)
    returns (r: PageStep<T>)
    requires WellFormed(ref, txns) && k <= j <= m <= |txns| && j > 0 && Resumed(p, ref, txns, k, j, current, updated)
    requires page.events == FlattenFront(txns[j..m]) && page.cursor == HeadAt(ref, txns, m)
    ensures r.Halted? ==> r.outcome.ReadOnlyPrefix? && Reached(p, ref, txns, k, current.state, r.outcome)
    ensures r.Advanced? ==> Resumed(p, ref, txns, k, m, current, r.updated)
  {
    PageApplied(p, ref, txns, k, j, m, current.state, updated);
    PageAdvances(ref, txns, j, m);
    var applied := ApplyCommitted(p, ref, updated.state, updated.head, page.events);
    if applied.fault.Some? {
      return Halted(ReadOnlyPrefix(Seal(p, applied.head, applied.state)));
    }
    if |page.events| == 0 {
      return Advanced(updated);
    }
    if page.cursor.None? || !page.cursor.value.Valid() {
      return Halted(Failed(Stuck));
    }
    if page.cursor.value.journal != ref || page.cursor.value.commitSeq <= updated.head.value.commitSeq
      || applied.head != page.cursor {
      return Halted(Failed(Stuck));
    }
    assert HeadAt(ref, txns, m) == page.cursor;
    r := Advanced(Seal(p, page.cursor, applied.state));
  }

  lemma UpdateEnds<T>(p: Projector<T>, ref: JournalRef, txns: seq<Transaction>, k: nat, s: T, updated: Snapshot<T>)
    requires k <= |txns| && UpdatedTo(p, ref, txns, k, |txns|, s, updated)
    ensures Reached(p, ref, txns, k, s, Complete(updated))
  {
    assert txns[k..|txns|] == txns[k..];
  }

  lemma LastPage<T>(p: Projector<T>, ref: JournalRef, txns: seq<Transaction>, k: nat, m: nat, current: Snapshot<T>,
          updated: Snapshot<T>)
    requires k <= m == |txns| && Resumed(p, ref, txns, k, m, current, updated)
    ensures Reached(p, ref, txns, k, current.state, Complete(updated))
  {
    UpdateEnds(p, ref, txns, k, current.state, updated);
  }

  /** A page, and whether the update is over with it. */
  method ConcludePage<T>(p: Projector<T>, ref: JournalRef, updated: Snapshot<T>, page: Page,
          ghost txns: seq<Transaction>, ghost k: nat, ghost j: nat, ghost m: nat, ghost current: Snapshot<T>)
    returns (r: PageStep<T>)
    requires WellFormed(ref, txns) && k <= j <= m <= |txns| && j > 0 && Resumed(p, ref, txns, k, j, current, updated)
    requires page.events == FlattenFront(txns[j..m]) && page.cursor == HeadAt(ref, txns, m)
    requires page.head == HeadAt(ref, txns, |txns|) && (page.more <==> m < |txns|) && (j < |txns| ==> j < m)
    ensures r.Halted? ==> r.outcome.ReadOnlyPrefix? && Reached(p, ref, txns, k, current.state, r.outcome)
    ensures r.Advanced? ==> Resumed(p, ref, txns, k, m, current, r.updated)
    ensures r.Advanced? && page.more ==> j < m
    ensures r.Advanced? && !page.more ==> Reached(p, ref, txns, k, current.state, Complete(r.updated))
  {
    r := ApplyPage(p, ref, updated, page, txns, k, j, m, current);
    if r.Halted? {
      return;
    }
    if !page.more {
      if page.head != r.updated.head {
        return Halted(Failed(Stuck));
      }
      LastPage(p, ref, txns, k, m, current, r.updated);
    } else if |page.events| == 0 {
      PageAdvances(ref, txns, j, m);
      return Halted(Failed(Stuck));
    }
  }

  lemma ResumedStays<T>(p: Projector<T>, ref: JournalRef, txns: seq<Transaction>, later: seq<Transaction>, k: nat,
          j: nat, current: Snapshot<T>, updated: Snapshot<T>)
    requires k <= j <= |txns| && txns <= later && Resumed(p, ref, txns, k, j, current, updated)
    ensures Resumed(p, ref, later, k, j, current, updated)
  {
    assert later[k..j] == txns[k..j];
    assert HeadAt(ref, txns, j) == HeadAt(ref, later, j) && HeadAt(ref, txns, k) == HeadAt(ref, later, k);
  }

  /** What an update from a boundary snapshot reaches is what a rebuild reaches. */
  lemma UpdateIsRebuild<T>(p: Projector<T>, ref: JournalRef, txns: seq<Transaction>, k: nat, o: Outcome<T>)
    requires WellFormed(ref, txns) && k <= |txns| && Folds(p, ref, txns, k) && !o.Failed?
    requires Reached(p, ref, txns, k, SnapshotAt(p, ref, txns, k).state, o)
    ensures o.snapshot == Projected(p, ref, txns)
    ensures o.Complete? <==> Folds(p, ref, txns, |txns|)
    ensures o.Complete? ==> IsSnapshotAt(p, ref, txns, o.snapshot, |txns|)
  {
    IncrementalIsRebuild(p, ref, txns, k);
    assert txns[..|txns|] == txns;
  }

  lemma WholeSnapshot<T>(p: Projector<T>, ref: JournalRef, txns: seq<Transaction>, s: Snapshot<T>)
    requires IsSnapshotAt(p, ref, txns, s, |txns|)
    ensures s == Projected(p, ref, txns) && Folds(p, ref, txns, |txns|)
  {
    assert txns[..|txns|] == txns;
  }

  ghost predicate Answers<T>(o: Outcome<T>, expected: Option<Snapshot<T>>) {
    match expected
    case Some(s) => o == Complete(s)
    case None => o.Failed?
  }

  /** The search of `At` folded `txns[..i]` and did not meet the target. */
  ghost predicate Searched<T>(p: Projector<T>, ref: JournalRef, txns: seq<Transaction>, i: nat, events: seq<Record>,
          r: Applied<T>, target: Cursor)
    requires i <= |txns|
  {
    && events == FlattenFront(txns[i..])
    && Folds(p, ref, txns, i) && r == Applied(Fold(p, p.zero(ref), txns[..i]).state, HeadAt(ref, txns, i), None)
    && (forall j :: 0 <= j < i ==> TransactionCursor(ref, txns[j]) != Some(target))
  }

  lemma OneChunk(ref: JournalRef, txns: seq<Transaction>, i: nat)
    requires WellFormed(ref, txns) && i < |txns|
    ensures FlattenFront(txns[i..]) == txns[i] + FlattenFront(txns[i + 1..])
    ensures Chunks(txns[i]) == [txns[i]]
    ensures Chunks(FlattenFront(txns[i..])) == [txns[i]] + Chunks(FlattenFront(txns[i + 1..]))
  {
    assert txns[i..][1..] == txns[i + 1..];
    SliceWellFormed(ref, txns, i, |txns|);
    SliceWellFormed(ref, txns, i + 1, |txns|);
    SliceWellFormed(ref, txns, i, i + 1);
    assert txns[i..|txns|] == txns[i..] && txns[i + 1..|txns|] == txns[i + 1..] && txns[i..i + 1] == [txns[i]];
    ChunksRecover(ref, txns[i..]);
    ChunksRecover(ref, txns[i + 1..]);
    ChunksRecover(ref, [txns[i]]);
    assert FlattenFront([txns[i]]) == txns[i] + FlattenFront([txns[i]][1..]) == txns[i];
  }

  lemma BoundaryChunk(ref: JournalRef, txns: seq<Transaction>, i: nat)
    requires WellFormed(ref, txns) && i <= |txns|
    ensures FlattenFront(txns[i..]) == [] <==> i == |txns|
    ensures i < |txns| ==>
      && Chunks(FlattenFront(txns[i..])) == [txns[i]] + Chunks(FlattenFront(txns[i + 1..]))
      && FlattenFront(txns[i..]) == txns[i] + FlattenFront(txns[i + 1..])
  {
    SliceWellFormed(ref, txns, i, |txns|);
    assert txns[i..|txns|] == txns[i..];
    RecordsAscend(ref, txns[i..]);
    if i < |txns| { OneChunk(ref, txns, i); }
  }

  lemma BoundaryFold<T>(p: Projector<T>, ref: JournalRef, txns: seq<Transaction>, i: nat, r: Applied<T>)
    requires WellFormed(ref, txns) && i < |txns| && Folds(p, ref, txns, i)
    requires r == Applied(Fold(p, p.zero(ref), txns[..i]).state, HeadAt(ref, txns, i), None)
    ensures ApplyOne(p, ref, r, txns[i]).fault.Some? == !Folds(p, ref, txns, i + 1)
    ensures Folds(p, ref, txns, i + 1) ==>
      ApplyOne(p, ref, r, txns[i]) == Applied(Fold(p, p.zero(ref), txns[..i + 1]).state, HeadAt(ref, txns, i + 1), None)
  {
    NextTransaction(p, ref, txns, i, i + 1, r);
    assert txns[..i + 1][..i] == txns[..i];
  }

  lemma ApplyOneChunk<T>(p: Projector<T>, ref: JournalRef, txns: seq<Transaction>, i: nat, r: Applied<T>)
    requires WellFormed(ref, txns) && i < |txns| && r.fault.None?
    ensures ApplyChunks(p, ref, r, Chunks(txns[i])) == ApplyOne(p, ref, r, txns[i])
  {
    OneChunk(ref, txns, i);
    assert [txns[i]][..0] == [];
    assert ApplyChunks(p, ref, r, [txns[i]][..0]) == r;
  }

  lemma NextBoundary<T>(p: Projector<T>, ref: JournalRef, txns: seq<Transaction>, i: nat, events: seq<Record>,
          r: Applied<T>, target: Cursor)
    requires WellFormed(ref, txns) && i <= |txns| && Searched(p, ref, txns, i, events, r, target)
    ensures events == [] <==> i == |txns|
    ensures events != [] ==>
      && Chunks(events) == [txns[i]] + Chunks(FlattenFront(txns[i + 1..]))
      && events == txns[i] + FlattenFront(txns[i + 1..])
      && ApplyChunks(p, ref, r, Chunks(txns[i])) == ApplyOne(p, ref, r, txns[i])
      && ApplyOne(p, ref, r, txns[i]).fault.Some? == !Folds(p, ref, txns, i + 1)
    ensures events != [] && Folds(p, ref, txns, i + 1) ==>
      ApplyOne(p, ref, r, txns[i]) == Applied(Fold(p, p.zero(ref), txns[..i + 1]).state, HeadAt(ref, txns, i + 1), None)
  {
    BoundaryChunk(ref, txns, i);
    if i < |txns| {
      BoundaryFold(p, ref, txns, i, r);
      ApplyOneChunk(p, ref, txns, i, r);
    }
  }

  lemma NoBoundary<T>(p: Projector<T>, ref: JournalRef, txns: seq<Transaction>, i: nat, target: Cursor)
    requires WellFormed(ref, txns) && i <= |txns|
    requires forall j :: 0 <= j < i ==> TransactionCursor(ref, txns[j]) != Some(target)
    requires i < |txns| ==>
      TransactionCursor(ref, txns[i]).Some? && TransactionCursor(ref, txns[i]).value.commitSeq > target.commitSeq
    ensures PointRead(p, ref, txns, target) == None
  {
    forall j | 0 <= j < |txns| ensures TransactionCursor(ref, txns[j]) != Some(target) {
      if i < j { HeadsAscend(ref, txns, i + 1, j + 1); }
    }
    PointReadNowhere(p, ref, txns, target);
  }

  lemma {:induction false} BrokenEarlier<T>(p: Projector<T>, ref: JournalRef, txns: seq<Transaction>, i: nat,
          target: Cursor)
    requires i < |txns| && !Folds(p, ref, txns, i + 1)
    requires forall j :: 0 <= j < i ==> TransactionCursor(ref, txns[j]) != Some(target)
    ensures PointRead(p, ref, txns, target) == None
  {
    var n := |txns|;
    FoldIsPrefix(p, p.zero(ref), txns, i + 1);
    assert txns[..n] == txns;
    if n > i + 1 {
      assert txns[..n - 1][..i + 1] == txns[..i + 1];
      BrokenEarlier(p, ref, txns[..n - 1], i, target);
    } else {
      PointReadNowhere(p, ref, txns[..i], target);
    }
  }

  lemma Advance<T>(p: Projector<T>, ref: JournalRef, txns: seq<Transaction>, i: nat, events: seq<Record>,
          r: Applied<T>, target: Cursor)
    requires WellFormed(ref, txns) && i < |txns| && Searched(p, ref, txns, i, events, r, target)
    requires Folds(p, ref, txns, i + 1) && HeadAt(ref, txns, i + 1) != Some(target)
    ensures |txns[i]| <= |events|
    ensures Searched(p, ref, txns, i + 1, events[|txns[i]|..], ApplyOne(p, ref, r, txns[i]), target)
  {
    NextBoundary(p, ref, txns, i, events, r, target);
  }

  datatype SearchStep<T> = Found(outcome: Outcome<T>) | Next(applied: Applied<T>)

  /** One transaction of the search. */
  method SearchOne<T>(p: Projector<T>, ref: JournalRef, events: seq<Record>, target: Cursor, r: Applied<T>,
          ghost txns: seq<Transaction>, ghost i: nat)
    returns (step: SearchStep<T>, end: nat)
    requires WellFormed(ref, txns) && i < |txns| && events != [] && Searched(p, ref, txns, i, events, r, target)
    ensures 0 < end <= |events|
    ensures step.Found? ==> Answers(step.outcome, PointRead(p, ref, txns, target))
    ensures step.Next? ==> Searched(p, ref, txns, i + 1, events[end..], step.applied, target)
  {
    NextBoundary(p, ref, txns, i, events, r, target);
    assert events[0..] == events;
    end := FirstRunEnd(events, 0);
    assert events[..end] == events[0..end];
    assert ([events[..end]] + Chunks(events[end..]))[0] == events[..end] == txns[i];
    var cursor := CommittedTransactionCursor(ref, events[..end]);
    HeadsAscend(ref, txns, i, i + 1);
    if cursor.None? {
      return Found(Failed(Stuck)), end;
    }
    if cursor.value.commitSeq > target.commitSeq {
      NoBoundary(p, ref, txns, i, target);
      return Found(Failed(NotABoundary)), end;
    }
    var applied := ApplyCommitted(p, ref, r.state, r.head, events[..end]);
    if applied.fault.Some? {
      BrokenEarlier(p, ref, txns, i, target);
      return Found(Failed(Unprojectable)), end;
    }
    if applied.head == Some(target) {
      PointReadAt(p, ref, txns, i + 1);
      return Found(Complete(Seal(p, applied.head, applied.state))), end;
    }
    Advance(p, ref, txns, i, events, r, target);
    step := Next(applied);
  }

  lemma SearchEnds<T>(p: Projector<T>, ref: JournalRef, txns: seq<Transaction>, i: nat, events: seq<Record>,
          r: Applied<T>, target: Cursor)
    requires WellFormed(ref, txns) && i <= |txns| && Searched(p, ref, txns, i, events, r, target)
    ensures events == [] <==> i == |txns|
    ensures events == [] ==> PointRead(p, ref, txns, target) == None
  {
    BoundaryChunk(ref, txns, i);
    if i == |txns| { NoBoundary(p, ref, txns, i, target); }
  }

  method SearchBoundary<T>(p: Projector<T>, ref: JournalRef, events: seq<Record>, target: Cursor,
          ghost txns: seq<Transaction>) returns (o: Outcome<T>)
    requires WellFormed(ref, txns) && events == FlattenFront(txns)
    ensures Answers(o, PointRead(p, ref, txns, target))
  {
    var r := Applied(p.zero(ref), None, None);
    ghost var i: nat := 0;
    var start := 0;
    assert txns[0..] == txns && txns[..0] == [] && events[0..] == events;
    while start < |events|
      invariant 0 <= start <= |events| && i <= |txns|
      invariant Searched(p, ref, txns, i, events[start..], r, target)
    {
      SearchEnds(p, ref, txns, i, events[start..], r, target);
      var step, length := SearchOne(p, ref, events[start..], target, r, txns, i);
      if step.Found? {
        return step.outcome;
      }
      assert events[start..][length..] == events[start + length..];
      r, start, i := step.applied, start + length, i + 1;
    }
    SearchEnds(p, ref, txns, i, events[start..], r, target);
    o := Failed(UnknownCursor);
  }

  class Store<!T> {
    const projector: Projector<T>
    const log: CommitLog
    const cache: MemoryCache?<T>

    constructor (projector: Projector<T>, log: CommitLog, cache: MemoryCache?<T>)
      requires log.Valid() && (cache != null ==> cache.snapshots == map[])
      ensures Valid() && this.projector == projector && this.log == log && this.cache == cache
    {
      this.projector, this.log, this.cache := projector, log, cache;
    }

    /** Whatever the cache would answer for this journal is the fold of a committed prefix. */
    ghost predicate Valid()
      reads this, log, cache
    {
      && log.Valid()
      && (cache != null && log.ref in cache.snapshots ==>
        Honest(projector, log.ref, log.txns, cache.snapshots[log.ref]))
    }

    method Rebuild() returns (o: Outcome<T>)
      requires Valid()
      modifies log, cache
      ensures Valid() && log.Grown()
      ensures !o.Failed? && o.snapshot == Projected(projector, log.ref, log.txns)
      ensures o.Complete? <==> log.writable && Folds(projector, log.ref, log.txns, |log.txns|)
      ensures cache != null ==> cache.snapshots == CacheAfter(old(cache.snapshots), log.ref, o)
    {
      var events, head, writable := log.Inspect();
      log.CommittedWellFormed();
      FromZero(projector, log.ref, log.txns);
      StayValid(old(log.txns));
      var applied := ApplyCommitted(projector, log.ref, projector.zero(log.ref), None, events);
      if applied.fault.Some? {
        return ReadOnlyPrefix(Seal(projector, applied.head, applied.state));
      }
      if |events| > 0 && applied.head != head {
        return Failed(Stuck);
      }
      var snapshot := Seal(projector, head, applied.state);
      if !writable {
        return ReadOnlyPrefix(snapshot);
      }
      if cache != null {
        cache.Store(log.ref, snapshot);
      }
      o := Complete(snapshot);
    }

    lemma StayValid(before: seq<Transaction>)
      requires log.Valid() && before <= log.txns
      requires cache != null && log.ref in cache.snapshots ==>
        Honest(projector, log.ref, before, cache.snapshots[log.ref])
      ensures Valid()
    {
      if cache != null && log.ref in cache.snapshots {
        StaysHonest(projector, log.ref, before, log.txns, cache.snapshots[log.ref]);
      }
    }

    /** One turn of the update loop: read the next page and fold it. */
    method NextPage(current: Snapshot<T>, updated: Snapshot<T>, ghost k: nat, ghost j: nat)
      returns (step: PageStep<T>, more: bool, ghost from: nat, ghost to: nat)
      requires log.Valid() && current.version == projector.version && ValidSnapshot(projector, current)
      requires k <= j <= |log.txns|
      requires if j == 0 then updated == current else Resumed(projector, log.ref, log.txns, k, j, current, updated)
      modifies log
      ensures log.Grown() && from <= to <= |log.txns| && (j > 0 ==> from == k)
      ensures step.Halted? && step.outcome.Failed? ==> j == 0 && !CommittedHead(log.ref, log.txns, current.head)
      ensures !(step.Halted? && step.outcome.Failed?) ==>
        CommittedHead(log.ref, log.txns, current.head) && current.head == HeadAt(log.ref, log.txns, from)
      ensures step.Halted? && !step.outcome.Failed? ==>
        step.outcome.ReadOnlyPrefix? && Reached(projector, log.ref, log.txns, from, current.state, step.outcome)
      ensures step.Advanced? ==> j <= to && Resumed(projector, log.ref, log.txns, from, to, current, step.updated)
      ensures step.Advanced? && more ==> j < to
      ensures step.Advanced? && !more ==>
        Reached(projector, log.ref, log.txns, from, current.state, Complete(step.updated))
    {
      ghost var seen := log.txns;
      var read, start, end := log.ReadRange(updated.head, PAGE_LIMIT);
      log.CommittedWellFormed();
      ghost var txns := log.txns;
      from, to, more := k, j, false;
      if j > 0 {
        ResumedStays(projector, log.ref, seen, txns, k, j, current, updated);
      }
      if read.BadRange? {
        return Halted(Failed(UnknownCursor)), false, 0, 0;
      }
      if j > 0 {
        HeadsDiffer(log.ref, txns, start, j);
      } else {
        assert HeadAt(log.ref, txns, start) == current.head;
        from, to := start, start;
      }
      step := ConcludePage(projector, log.ref, updated, read.page, txns, from, to, end, current);
      to, more := end, read.page.more;
    }

    /** A paged update from any sealed snapshot whose head is committed at `k`. */
    method Update(current: Snapshot<T>) returns (o: Outcome<T>, ghost k: nat)
      requires log.Valid()
      requires current.head.Some? ==> current.head.value.journal == log.ref
      modifies log, cache
      ensures log.Grown() && k <= |log.txns|
      ensures !o.Failed? <==> Sealed(projector, current) && CommittedHead(log.ref, log.txns, current.head)
      ensures !o.Failed? ==> current.head == HeadAt(log.ref, log.txns, k)
      ensures !o.Failed? ==> Reached(projector, log.ref, log.txns, k, current.state, o)
      ensures cache != null ==> cache.snapshots == CacheAfter(old(cache.snapshots), log.ref, o)
    {
      k := 0;
      if current.version != projector.version {
        return Failed(BadVersion), 0;
      }
      if !ValidSnapshot(projector, current) {
        return Failed(BadSnapshot), 0;
      }
      var updated := current;
      ghost var total := log.txns + log.pending;
      ghost var j: nat := 0;
      while true
        invariant log.Grown() && log.txns + log.pending == total
        invariant cache != null ==> cache.snapshots == old(cache.snapshots)
        invariant k <= j <= |log.txns|
        invariant if j == 0 then updated == current else Resumed(projector, log.ref, log.txns, k, j, current, updated)
        decreases |total| - j
      {
        var step, more, from, to := NextPage(current, updated, k, j);
        if step.Halted? {
          return step.outcome, from;
        }
        updated, k, j := step.updated, from, to;
        if !more {
          break;
        }
      }
      if cache != null {
        cache.Store(log.ref, updated);
      }
      o := Complete(updated);
    }

    /** Through the cache or not, a load yields what a rebuild of the journal yields. */
    method Load() returns (o: Outcome<T>)
      requires Valid()
      modifies log, cache
      ensures Valid() && log.Grown()
      ensures !o.Failed? && o.snapshot == Projected(projector, log.ref, log.txns)
      ensures o.Complete? ==> Folds(projector, log.ref, log.txns, |log.txns|)
      ensures log.writable && Folds(projector, log.ref, log.txns, |log.txns|) ==> o.Complete?
    {
      if cache == null {
        o := Rebuild();
        return;
      }
      var snapshot := cache.Load(log.ref);
      if snapshot.None? || snapshot.value.version != projector.version
        || !ValidSnapshot(projector, snapshot.value) || snapshot.value.head.value.journal != log.ref {
        o := Rebuild();
        return;
      }
      var current := snapshot.value;
      ghost var k0: nat :| IsSnapshotAt(projector, log.ref, log.txns, current, k0);
      ghost var seen := log.txns;
      var head := log.Head();
      StayValid(seen);
      StaysSnapshotAt(projector, log.ref, seen, log.txns, current, k0);
      if head == current.head {
        log.CommittedWellFormed();
        HeadsDiffer(log.ref, log.txns, k0, |log.txns|);
        WholeSnapshot(projector, log.ref, log.txns, current);
        return Complete(current);
      }
      o := CatchUp(current, k0);
    }

    /** An update from the snapshot of a committed prefix. */
    method CatchUp(current: Snapshot<T>, ghost k: nat) returns (o: Outcome<T>)
      requires Valid() && IsSnapshotAt(projector, log.ref, log.txns, current, k) && Usable(projector, log.ref, current)
      modifies log, cache
      ensures Valid() && log.Grown()
      ensures !o.Failed? && o.snapshot == Projected(projector, log.ref, log.txns)
      ensures o.Complete? <==> Folds(projector, log.ref, log.txns, |log.txns|)
      ensures cache != null ==> cache.snapshots == CacheAfter(old(cache.snapshots), log.ref, o)
    {
      ghost var seen := log.txns;
      ghost var j: nat;
      o, j := Update(current);
      StaysSnapshotAt(projector, log.ref, seen, log.txns, current, k);
      assert HeadAt(log.ref, log.txns, k) == current.head;
      log.CommittedWellFormed();
      HeadsDiffer(log.ref, log.txns, k, j);
      UpdateIsRebuild(projector, log.ref, log.txns, k, o);
      if o.ReadOnlyPrefix? {
        StayValid(seen);
      }
    }

    /** `At`: the projection at one exact boundary, without the cache. */
    method At(target: Cursor) returns (o: Outcome<T>)
      requires Valid()
      modifies log
      ensures Valid() && log.Grown()
      ensures !target.Valid() || target.journal != log.ref ==> o.Failed?
      ensures target.Valid() && target.journal == log.ref ==>
        Answers(o, PointRead(projector, log.ref, log.txns, target))
    {
      if !target.Valid() || target.journal != log.ref {
        return Failed(BadTarget);
      }
      ghost var seen := log.txns;
      var events, head, writable := log.Inspect();
      StayValid(seen);
      log.CommittedWellFormed();
      o := SearchBoundary(projector, log.ref, events, target, log.txns);
    }
  }

  /** At every committed boundary the point read folds exactly the records the exact
      prefix reader returns, whatever was committed after the boundary. */
  lemma PointReadsAgree<T>(p: Projector<T>, ref: JournalRef, txns: seq<Transaction>, k: nat)
    requires WellFormed(ref, txns) && 1 <= k <= |txns| && HeadAt(ref, txns, k).Some?
    ensures var target := HeadAt(ref, txns, k).value;
      var records := UpTo(ref, FlattenFront(txns), target);
      && records.Some? && Chunks(records.value) == txns[..k]
      && PointRead(p, ref, txns, target) ==
        (var f := Fold(p, p.zero(ref), Chunks(records.value));
          if f.done == k then Some(Seal(p, Some(target), f.state)) else None)
  {
    BoundaryPrefix(ref, txns, k);
    SliceWellFormed(ref, txns, 0, k);
    assert txns[0..k] == txns[..k];
    ChunksRecover(ref, txns[..k]);
    PointReadAt(p, ref, txns, k);
  }
}
