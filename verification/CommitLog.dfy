/** A journal other writers keep appending to, and its readers. */
module CommitLogs {
  import opened Journals
  import opened Sequences
  import opened Commits

  datatype Page = Page(events: seq<Record>, cursor: Option<Cursor>, head: Option<Cursor>, more: bool)

  datatype ReadResult = BadLimit | BadRange | TooLarge | Read(page: Page)

  /** The loop of `ReadRange`: whole transactions from `start` on, as many as fit. */
  method FillPage(commits: seq<Transaction>, start: nat, limit: nat)
    returns (tooLarge: bool, events: seq<Record>, end: nat, more: bool)
    requires start <= |commits| && 1 <= limit && forall i :: 0 <= i < |commits| ==> commits[i] != []
    ensures tooLarge <==> start < |commits| && |commits[start]| > limit
    ensures !tooLarge ==>
      && start <= end <= |commits| && events == FlattenFront(commits[start..end]) && |events| <= limit
      && (more <==> end < |commits|) && (start < |commits| ==> start < end)
  {
    events, end, more := [], start, false;
    while end < |commits|
      invariant start <= end <= |commits|
      invariant events == FlattenFront(commits[start..end]) && |events| <= limit
      invariant events == [] <==> end == start
      invariant more <==> start < end < |commits|
      invariant start < end ==> |commits[start]| <= limit
    {
      var commit := commits[end];
      if |events| > 0 && |events| + |commit| > limit {
        more := true;
        break;
      }
      if |events| == 0 && |commit| > limit {
        return true, [], start, false;
      }
      assert commits[start..end] + [commit] == commits[start..end + 1];
      FlattenFrontSnoc(commits[start..end], commit);
      events := events + commit;
      end := end + 1;
      more := end < |commits|;
      if |events| == limit {
        break;
      }
    }
    tooLarge := false;
  }

  /** `pending` holds the transactions other writers are about to commit. Every reading
      call first lets any number of them commit, so each contract below covers every
      interleaving of appends with reads. */
  class CommitLog {
    const ref: JournalRef
    var txns: seq<Transaction>
    var pending: seq<Transaction>
    var writable: bool

    ghost predicate Valid()
      reads this
    {
      WellFormed(ref, txns + pending)
    }

    /** What any call leaves: the same journal, with possibly more of it committed. */
    twostate predicate Grown()
      reads this
    {
      Valid() && old(txns) <= txns && txns + pending == old(txns + pending)
    }

    constructor (ref: JournalRef, txns: seq<Transaction>, pending: seq<Transaction>)
      requires WellFormed(ref, txns + pending)
      ensures Valid() && this.ref == ref && this.txns == txns && this.pending == pending
    {
      this.ref, this.txns, this.pending, writable := ref, txns, pending, true;
    }

    lemma CommittedWellFormed()
      requires Valid()
      ensures WellFormed(ref, txns)
    {
      SliceWellFormed(ref, txns + pending, 0, |txns|);
      assert (txns + pending)[0..|txns|] == txns;
    }

    method Advance()
      requires Valid()
      modifies this
      ensures Grown()
    {
      var n: nat :| n <= |pending|;
      var damaged: bool :| true;
      assert txns + pending == (txns + pending[..n]) + pending[n..];
      txns, pending := txns + pending[..n], pending[n..];
      writable := writable && !damaged;
    }

    method Inspect() returns (events: seq<Record>, head: Option<Cursor>, writable: bool)
      requires Valid()
      modifies this
      ensures Grown()
      ensures events == FlattenFront(txns) && head == HeadAt(ref, txns, |txns|) && writable == this.writable
    {
      Advance();
      events, head, writable := FlattenFront(txns), HeadAt(ref, txns, |txns|), this.writable;
    }

    method Head() returns (head: Option<Cursor>)
      requires Valid()
      modifies this
      ensures Grown() && head == HeadAt(ref, txns, |txns|)
    {
      Advance();
      head := HeadAt(ref, txns, |txns|);
    }

    /** Whole transactions after a committed cursor: `txns[start..end]`, as many as fit. */
    method ReadRange(after: Option<Cursor>, limit: int) returns (r: ReadResult, ghost start: nat, ghost end: nat)
      requires Valid()
      modifies this
      ensures Grown()
      ensures r.BadLimit? <==> !(1 <= limit <= 1000)
      ensures r.BadRange? <==> 1 <= limit <= 1000 && !CommittedHead(ref, txns, after)
      ensures r.TooLarge? || r.Read? ==> start <= |txns| && after == HeadAt(ref, txns, start)
      ensures r.TooLarge? ==> start < |txns| && |txns[start]| > limit
      ensures r.Read? && start < |txns| ==> |txns[start]| <= limit
      ensures r.Read? ==>
        && start <= end <= |txns| && after == HeadAt(ref, txns, start)
        && r.page.events == FlattenFront(txns[start..end]) && |r.page.events| <= limit
        && r.page.cursor == HeadAt(ref, txns, end) && r.page.head == HeadAt(ref, txns, |txns|)
        && (r.page.more <==> end < |txns|) && (start < |txns| ==> start < end)
    {
      start, end := 0, 0;
      if limit < 1 || limit > PAGE_LIMIT {
        return BadLimit, 0, 0;
      }
      Advance();
      CommittedWellFormed();
      var found := Locate(after);
      if found.None? {
        return BadRange, 0, 0;
      }
      start := found.value;
      forall i | 0 <= i < |txns| ensures txns[i] != [] { assert ValidTransaction(ref, txns[i]); }
      var tooLarge, events, index, more := FillPage(txns, found.value, limit);
      if tooLarge {
        return TooLarge, start, start;
      }
      end := index;
      r := Read(Page(events, HeadAt(ref, txns, index), HeadAt(ref, txns, |txns|), more));
    }

    method Locate(after: Option<Cursor>) returns (index: Option<nat>)
      requires WellFormed(ref, txns)
      ensures index.Some? ==> index.value <= |txns| && HeadAt(ref, txns, index.value) == after
      ensures index.None? <==> !CommittedHead(ref, txns, after)
    {
      if after.None? {
        assert HeadAt(ref, txns, 0) == after;
        return Some(0);
      }
      for i := 0 to |txns|
        invariant forall k: nat :: k <= i ==> after != HeadAt(ref, txns, k)
      {
        if TransactionCursor(ref, txns[i]) == after {
          assert HeadAt(ref, txns, i + 1) == after;
          return Some(i + 1);
        }
      }
      index := None;
    }
  }

  // ---- exact prefix reads ----

  /** The records up to and including the one `target` names. */
  function UpTo(ref: JournalRef, records: seq<Record>, target: Cursor): Option<seq<Record>> {
    if records == [] then None
    else
      var n := |records| - 1;
      if RecordCursor(ref, records[n]) == target then Some(records) else UpTo(ref, records[..n], target)
  }

  lemma {:induction false} NoneNamed(ref: JournalRef, records: seq<Record>, target: Cursor)
    requires forall i :: 0 <= i < |records| ==> RecordCursor(ref, records[i]) != target
    ensures UpTo(ref, records, target) == None
  {
    if records == [] {
    } else {
      NoneNamed(ref, records[..|records| - 1], target);
    }
  }

  lemma {:induction false} NamedAt(ref: JournalRef, records: seq<Record>, j: nat)
    requires Ascending(ref, records) && j < |records|
    ensures UpTo(ref, records, RecordCursor(ref, records[j])) == Some(records[..j + 1])
  {
    var n := |records| - 1;
    if j < n {
      NamedAt(ref, records[..n], j);
      assert records[..n][..j + 1] == records[..j + 1];
    } else {
      assert records[..j + 1] == records;
    }
  }

  /** What a scan of one page concludes. */
  datatype Scan = Continue(events: seq<Record>) | Stop(result: Option<seq<Record>>)

  ghost predicate AllBefore(ref: JournalRef, records: seq<Record>, target: Cursor) {
    forall i :: 0 <= i < |records| ==> RecordCursor(ref, records[i]).commitSeq < target.commitSeq
  }

  /** Record `at` is the first whose cursor reaches the target's position. */
  lemma FirstReached(ref: JournalRef, all: seq<Record>, at: nat, target: Cursor)
    requires Ascending(ref, all) && at < |all| && AllBefore(ref, all[..at], target)
    requires RecordCursor(ref, all[at]).commitSeq >= target.commitSeq
    ensures UpTo(ref, all, target) == if RecordCursor(ref, all[at]) == target then Some(all[..at + 1]) else None
  {
    if RecordCursor(ref, all[at]) == target {
      NamedAt(ref, all, at);
    } else {
      forall j | 0 <= j < |all| ensures RecordCursor(ref, all[j]) != target {
        if j < at { assert all[..at][j] == all[j]; }
      }
      NoneNamed(ref, all, target);
    }
  }

  /** The scan of one page; `before` holds the earlier records, `rest` the later ones. */
  method ScanPage(ref: JournalRef, before: seq<Record>, page: seq<Record>, ghost rest: seq<Record>, target: Cursor)
    returns (scan: Scan)
    requires Ascending(ref, before + page + rest) && Identified(ref, page)
    requires target.journal == ref && AllBefore(ref, before, target)
    ensures scan.Continue? ==> scan.events == before + page && AllBefore(ref, scan.events, target)
    ensures scan.Stop? ==> scan.result == UpTo(ref, before + page + rest, target)
  {
    var events := before;
    ghost var all := before + page + rest;
    for i := 0 to |page|
      invariant events == before + page[..i] && AllBefore(ref, events, target)
    {
      var record := page[i];
      ghost var at := |before| + i;
      assert all[at] == record && all[..at] == events;
      if RecordCursor(ref, record).commitSeq >= target.commitSeq {
        FirstReached(ref, all, at, target);
      }
      assert all[..at + 1] == events + [record];
      if record.Legacy? {
        if record.sequence > target.commitSeq {
          return Stop(None);
        }
        events := events + [record];
        if record.sequence == target.commitSeq {
          return if "legacy:" + record.id != target.txn then Stop(None) else Stop(Some(events));
        }
      } else {
        if record.journal != ref || record.sequence == 0 {
          return Stop(None);
        }
        if record.sequence >= target.commitSeq {
          return Stop(None);
        }
        events := events + [record];
        if record.sequence + 1 == target.commitSeq {
          return if record.txn != target.txn then Stop(None) else Stop(Some(events));
        }
      }
    }
    assert page[..|page|] == page;
    scan := Continue(events);
  }

  /** Everything already read, the page just read, and what the page leaves. */
  lemma PageSplits(ref: JournalRef, txns: seq<Transaction>, k: nat, end: nat)
    requires WellFormed(ref, txns) && k <= end <= |txns|
    ensures var before, page, rest := FlattenFront(txns[..k]), FlattenFront(txns[k..end]), FlattenFront(txns[end..]);
      && FlattenFront(txns) == before + page + rest && before + page == FlattenFront(txns[..end])
      && Ascending(ref, before + page + rest) && Identified(ref, page)
      && (page == [] ==> k == end)
  {
    FlattenCuts(txns, k, end);
    RecordsAscend(ref, txns);
    SliceWellFormed(ref, txns, k, end);
    RecordsIdentified(ref, txns[k..end]);
    RecordsAscend(ref, txns[k..end]);
  }

  /** The head after `end` transactions is the cursor of the last record among them. */
  lemma LastRecord(ref: JournalRef, txns: seq<Transaction>, end: nat)
    requires WellFormed(ref, txns) && 0 < end <= |txns|
    ensures var done := FlattenFront(txns[..end]);
      done != [] && HeadAt(ref, txns, end) == Some(RecordCursor(ref, done[|done| - 1]))
  {
    SliceWellFormed(ref, txns, 0, end);
    assert txns[0..end] == txns[..end];
    RecordsAscend(ref, txns[..end]);
  }

  /** A page that does not continue past the target settles the search. */
  lemma NothingLater(ref: JournalRef, txns: seq<Transaction>, end: nat, target: Cursor)
    requires WellFormed(ref, txns) && end <= |txns| && AllBefore(ref, FlattenFront(txns[..end]), target)
    requires end == |txns| ||
      (end > 0 && HeadAt(ref, txns, end).Some? && HeadAt(ref, txns, end).value.commitSeq >= target.commitSeq)
    ensures UpTo(ref, FlattenFront(txns), target) == None
  {
    var done := FlattenFront(txns[..end]);
    if end > 0 {
      LastRecord(ref, txns, end);
    }
    assert end == |txns| && txns[..end] == txns;
    NoneNamed(ref, done, target);
  }

  /** `readInspectionAt`. */
  method ReadInspectionAt(log: CommitLog, target: Cursor) returns (result: Option<seq<Record>>)
    requires log.Valid()
    modifies log
    ensures log.Grown()
    ensures !target.Valid() || target.journal != log.ref ==> result == None
    ensures target.Valid() && target.journal == log.ref ==> result == UpTo(log.ref, FlattenFront(log.txns), target)
  {
    if !target.Valid() || target.journal != log.ref {
      return None;
    }
    var events: seq<Record> := [];
    var after: Option<Cursor> := None;
    ghost var k: nat := 0;
    ghost var total := log.txns + log.pending;
    while true
      invariant log.Grown() && log.txns + log.pending == total
      invariant k <= |log.txns| && after == HeadAt(log.ref, log.txns, k)
      invariant events == FlattenFront(log.txns[..k]) && AllBefore(log.ref, events, target)
      decreases |total| - k
    {
      ghost var seen := log.txns;
      var read, start, end := log.ReadRange(after, PAGE_LIMIT);
      assert log.txns[..k] == seen[..k];
      assert HeadAt(log.ref, log.txns, k) == after;
      log.CommittedWellFormed();
      if read.BadRange? {
        return None;
      }
      HeadsDiffer(log.ref, log.txns, start, k);
      PageSplits(log.ref, log.txns, k, end);
      var page := read.page;
      if |page.events| == 0 {
        NothingLater(log.ref, log.txns, k, target);
        return None;
      }
      var scan := ScanPage(log.ref, events, page.events, FlattenFront(log.txns[end..]), target);
      if scan.Stop? {
        return scan.result;
      }
      events := scan.events;
      if !page.more || page.cursor == after || page.cursor.value.commitSeq >= target.commitSeq {
        HeadsDiffer(log.ref, log.txns, end, k);
        NothingLater(log.ref, log.txns, end, target);
        return None;
      }
      k, after := end, page.cursor;
    }
  }

  /** A target at a committed boundary reads exactly the transactions before it; what is
      committed later does not change that. */
  lemma BoundaryPrefix(ref: JournalRef, txns: seq<Transaction>, k: nat)
    requires WellFormed(ref, txns) && 1 <= k <= |txns| && HeadAt(ref, txns, k).Some?
    ensures UpTo(ref, FlattenFront(txns), HeadAt(ref, txns, k).value) == Some(FlattenFront(txns[..k]))
  {
    var prefix, all := FlattenFront(txns[..k]), FlattenFront(txns);
    LastRecord(ref, txns, k);
    FlattenCuts(txns, 0, k);
    RecordsAscend(ref, txns);
    var j := |prefix| - 1;
    assert all[j] == prefix[j] && all[..j + 1] == prefix;
    NamedAt(ref, all, j);
  }

  /** A target inside a transaction is read too, although no transaction ends there. */
  lemma MidTransactionRead()
    ensures var ref := Session("s");
      var t := [Native(ref, 1, "t", "a"), Native(ref, 2, "t", "b")];
      && WellFormed(ref, [t]) && Cursor(ref, 2, "t") != HeadAt(ref, [t], 1).value
      && UpTo(ref, FlattenFront([t]), Cursor(ref, 2, "t")) == Some([t[0]])
  {
    var ref := Session("s");
    var t := [Native(ref, 1, "t", "a"), Native(ref, 2, "t", "b")];
    assert Follows(t, 0) && Follows(t, 1);
    assert FlattenFront([t]) == t + FlattenFront([t][1..]) == t;
    assert t[..1] == [t[0]];
  }
}
