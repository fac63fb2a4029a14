/** Committed transactions, their cursors, and cutting a record stream back into them. */
module Commits {
  import opened Journals
  import opened Sequences

  const PAGE_LIMIT := 1000

  datatype Record =
    | Native(journal: JournalRef, sequence: nat, txn: string, payload: string)
    | Legacy(id: string, sequence: nat, payload: string)

  type Transaction = seq<Record>

  predicate Same(left: Record, right: Record) {
    if left.Legacy? || right.Legacy? then left.Legacy? && right.Legacy? && left.id == right.id
    else left.txn != "" && left.txn == right.txn
  }

  /** The cursor a transaction gets if `r` is its last record. */
  function RecordCursor(ref: JournalRef, r: Record): Cursor {
    match r
    case Native(_, sequence, txn, _) => Cursor(ref, sequence + 1, txn)
    case Legacy(id, sequence, _) => Cursor(ref, sequence, "legacy:" + id)
  }

  /** Record `i` continues the native transaction its first record began. */
  predicate Follows(group: Transaction, i: nat)
    requires i < |group| && group[0].Native?
  {
    group[i].Native? && group[i].txn == group[0].txn && group[i].sequence == group[0].sequence + i
  }

  function TransactionCursor(ref: JournalRef, group: Transaction): Option<Cursor> {
    if group == [] then None
    else if group[0].Legacy? then
      if |group| != 1 || group[0].id == "" || group[0].sequence == 0 then None else Some(RecordCursor(ref, group[0]))
    else if group[0].txn == "" || group[0].sequence == 0 then None
    else if forall i :: 0 <= i < |group| ==> Follows(group, i) then Some(RecordCursor(ref, group[|group| - 1]))
    else None
  }

  method CommittedTransactionCursor(ref: JournalRef, records: Transaction) returns (cursor: Option<Cursor>)
    ensures cursor == TransactionCursor(ref, records)
  {
    if |records| == 0 { return None; }
    var first, last := records[0], records[|records| - 1];
    if first.Legacy? {
      if |records| != 1 || first.id == "" || first.sequence == 0 { return None; }
      return Some(Cursor(ref, first.sequence, "legacy:" + first.id));
    }
    if first.txn == "" || first.sequence == 0 || (last.Native? && last.sequence < first.sequence) {
      assert first.txn != "" && first.sequence != 0 ==> !Follows(records, |records| - 1);
      return None;
    }
    for i := 0 to |records|
      invariant forall k :: 0 <= k < i ==> Follows(records, k)
    {
      if records[i].Legacy? || records[i].txn != first.txn || records[i].sequence != first.sequence + i {
        assert !Follows(records, i);
        return None;
      }
    }
    assert Follows(records, |records| - 1);
    return Some(Cursor(ref, last.sequence + 1, first.txn));
  }

  // ---- a committed journal ----

  predicate ValidTransaction(ref: JournalRef, t: Transaction) {
    && 1 <= |t| <= PAGE_LIMIT
    && TransactionCursor(ref, t).Some?
    && forall i :: 0 <= i < |t| ==> t[i].Native? ==> t[i].journal == ref
  }

  /** `b` is committed after `a`, under another transaction identity. */
  predicate Before(ref: JournalRef, a: Transaction, b: Transaction)
    requires a != [] && b != [] && TransactionCursor(ref, a).Some?
  {
    !Same(a[0], b[0]) && TransactionCursor(ref, a).value.commitSeq < b[0].sequence
  }

  ghost predicate WellFormed(ref: JournalRef, txns: seq<Transaction>) {
    && ref.Valid()
    && (forall i :: 0 <= i < |txns| ==> ValidTransaction(ref, txns[i]))
    && (forall i, j :: 0 <= i < j < |txns| ==> Before(ref, txns[i], txns[j]))
  }

  /** The head of the journal once its first `k` transactions are committed. */
  function HeadAt(ref: JournalRef, txns: seq<Transaction>, k: nat): Option<Cursor>
    requires k <= |txns|
  {
    if k == 0 then None else TransactionCursor(ref, txns[k - 1])
  }

  /** `head` is where some prefix of the journal ends. */
  ghost predicate CommittedHead(ref: JournalRef, txns: seq<Transaction>, head: Option<Cursor>) {
    exists k: nat :: k <= |txns| && head == HeadAt(ref, txns, k)
  }

  /** Records of one transaction carry its one name, and a record of the older format is its
      own transaction. */
  lemma SameIff(left: Record, right: Record)
    ensures Same(left, right) <==>
      || (left.Native? && right.Native? && left.txn == right.txn && left.txn != "")
      || (left.Legacy? && right.Legacy? && left.id == right.id)
  {
  }

  /** Records numbered one by one under one name. */
  predicate Numbered(ref: JournalRef, t: Transaction, txn: string, first: nat) {
    && 1 <= |t| <= 1000 && txn != "" && first > 0
    && forall i :: 0 <= i < |t| ==>
      t[i].Native? && t[i].journal == ref && t[i].txn == txn && t[i].sequence == first + i
  }

  /** A transaction under a name of its own, numbered behind the head, can be committed, and
      the head moves behind its marker. */
  lemma CommitAppends(ref: JournalRef, txns: seq<Transaction>, t: Transaction, txn: string, first: nat)
    requires WellFormed(ref, txns) && Numbered(ref, t, txn, first)
    requires forall k :: 0 <= k < |txns| ==>
      TransactionCursor(ref, txns[k]).value.commitSeq < first && (txns[k][0].Native? ==> txns[k][0].txn != txn)
    ensures WellFormed(ref, txns + [t])
    ensures HeadAt(ref, txns + [t], |txns| + 1) == Some(Cursor(ref, first + |t|, txn))
  {
    assert forall i :: 0 <= i < |t| ==> Follows(t, i);
    assert ValidTransaction(ref, t);
    var longer := txns + [t];
    forall i, j | 0 <= i < j < |longer| ensures Before(ref, longer[i], longer[j]) {
      if j < |txns| { assert Before(ref, txns[i], txns[j]); }
    }
  }

  /** A record of the older format is committed alone, without a marker. */
  lemma LegacyAppends(ref: JournalRef, txns: seq<Transaction>, id: string, at: nat, payload: string)
    requires WellFormed(ref, txns) && id != "" && at > 0
    requires forall k :: 0 <= k < |txns| ==>
      TransactionCursor(ref, txns[k]).value.commitSeq < at && (txns[k][0].Legacy? ==> txns[k][0].id != id)
    ensures WellFormed(ref, txns + [[Legacy(id, at, payload)]])
    ensures HeadAt(ref, txns + [[Legacy(id, at, payload)]], |txns| + 1) == Some(Cursor(ref, at, "legacy:" + id))
  {
    var t := [Legacy(id, at, payload)];
    assert ValidTransaction(ref, t);
    var longer := txns + [t];
    forall i, j | 0 <= i < j < |longer| ensures Before(ref, longer[i], longer[j]) {
      if j < |txns| { assert Before(ref, txns[i], txns[j]); }
    }
  }

  lemma HeadsAscend(ref: JournalRef, txns: seq<Transaction>, j: nat, k: nat)
    requires WellFormed(ref, txns) && j < k <= |txns|
    ensures HeadAt(ref, txns, k).Some? && HeadAt(ref, txns, k).value.Valid()
    ensures HeadAt(ref, txns, k).value.journal == ref
    ensures j > 0 ==>
      HeadAt(ref, txns, j).Some? && HeadAt(ref, txns, j).value.commitSeq < HeadAt(ref, txns, k).value.commitSeq
  {
    var t := txns[k - 1];
    assert ValidTransaction(ref, t);
    if t[0].Native? { assert Follows(t, |t| - 1); }
    if j > 0 {
      assert ValidTransaction(ref, txns[j - 1]);
      assert Before(ref, txns[j - 1], t);
    }
  }

  lemma HeadsDiffer(ref: JournalRef, txns: seq<Transaction>, j: nat, k: nat)
    requires WellFormed(ref, txns) && j <= |txns| && k <= |txns|
    ensures HeadAt(ref, txns, j) == HeadAt(ref, txns, k) <==> j == k
  {
    if j < k { HeadsAscend(ref, txns, j, k); }
    if k < j { HeadsAscend(ref, txns, k, j); }
  }

  // ---- cutting a stream into transactions ----

  function RunEnd(records: seq<Record>, k: nat): (end: nat)
    requires 1 <= k <= |records|
    ensures k <= end <= |records|
    decreases |records| - k
  {
    if k < |records| && Same(records[0], records[k]) then RunEnd(records, k + 1) else k
  }

  function Chunks(records: seq<Record>): seq<Transaction>
    decreases |records|
  {
    if records == [] then [] else [records[..RunEnd(records, 1)]] + Chunks(records[RunEnd(records, 1)..])
  }

  lemma {:induction false} RunEndIs(records: seq<Record>, k: nat, n: nat)
    requires 1 <= k <= n <= |records|
    requires forall i :: k <= i < n ==> Same(records[0], records[i])
    requires n < |records| ==> !Same(records[0], records[n])
    ensures RunEnd(records, k) == n
    decreases n - k
  {
    if k == n {
    } else {
      RunEndIs(records, k + 1, n);
    }
  }

  lemma OneTransaction(ref: JournalRef, t: Transaction, i: nat)
    requires ValidTransaction(ref, t) && i < |t|
    ensures Same(t[0], t[i])
  {
    if t[0].Native? { assert Follows(t, i); }
  }

  /** Cutting the records of a committed journal finds exactly its transactions. */
  lemma {:induction false} ChunksRecover(ref: JournalRef, txns: seq<Transaction>)
    requires WellFormed(ref, txns)
    ensures Chunks(FlattenFront(txns)) == txns
  {
    if txns == [] {
    } else {
      var t, rest := txns[0], txns[1..];
      var records, tail := FlattenFront(txns), FlattenFront(rest);
      assert ValidTransaction(ref, t);
      forall i | 1 <= i < |t| ensures Same(records[0], records[i]) { OneTransaction(ref, t, i); }
      if rest != [] {
        assert ValidTransaction(ref, rest[0]) && Before(ref, txns[0], txns[1]);
        assert records[|t|] == tail[0] == rest[0][0];
      }
      RunEndIs(records, 1, |t|);
      assert records[..|t|] == t && records[|t|..] == tail;
      assert WellFormed(ref, rest) by {
        forall i, j | 0 <= i < j < |rest|
          ensures Before(ref, rest[i], rest[j])
        {
          assert Before(ref, txns[i + 1], txns[j + 1]);
        }
      }
      ChunksRecover(ref, rest);
    }
  }

  lemma SliceWellFormed(ref: JournalRef, txns: seq<Transaction>, j: nat, k: nat)
    requires WellFormed(ref, txns) && j <= k <= |txns|
    ensures WellFormed(ref, txns[j..k])
  {
    forall a, b | 0 <= a < b < |txns[j..k]| ensures Before(ref, txns[j..k][a], txns[j..k][b]) {
      assert Before(ref, txns[j + a], txns[j + b]);
    }
  }

  // ---- the order of records ----

  /** Record cursors strictly ascend through the whole journal. */
  ghost predicate Ascending(ref: JournalRef, records: seq<Record>) {
    forall i, j :: 0 <= i < j < |records| ==>
      RecordCursor(ref, records[i]).commitSeq < RecordCursor(ref, records[j]).commitSeq
  }

  lemma TransactionAscends(ref: JournalRef, t: Transaction)
    requires ValidTransaction(ref, t)
    ensures Ascending(ref, t)
    ensures TransactionCursor(ref, t) == Some(RecordCursor(ref, t[|t| - 1]))
    ensures forall i :: 0 <= i < |t| ==>
      t[0].sequence < RecordCursor(ref, t[i]).commitSeq || (t[i].Legacy? && t[0].sequence == t[i].sequence)
  {
    if t[0].Native? {
      forall i | 0 <= i < |t| ensures RecordCursor(ref, t[i]).commitSeq == t[0].sequence + i + 1 {
        assert Follows(t, i);
      }
    }
  }

  lemma Join(ref: JournalRef, a: seq<Record>, t: Transaction)
    requires Ascending(ref, a) && ValidTransaction(ref, t)
    requires a != [] ==> RecordCursor(ref, a[|a| - 1]).commitSeq < t[0].sequence
    ensures Ascending(ref, a + t)
  {
    TransactionAscends(ref, t);
    forall i, j | 0 <= i < j < |a + t|
      ensures RecordCursor(ref, (a + t)[i]).commitSeq < RecordCursor(ref, (a + t)[j]).commitSeq
    {
      if i < |a| <= j {
        assert RecordCursor(ref, a[i]).commitSeq <= RecordCursor(ref, a[|a| - 1]).commitSeq;
        assert (a + t)[j] == t[j - |a|];
      }
    }
  }

  lemma {:induction false} RecordsAscend(ref: JournalRef, txns: seq<Transaction>)
    requires WellFormed(ref, txns)
    ensures Ascending(ref, FlattenFront(txns))
    ensures var records := FlattenFront(txns);
      txns != [] ==> records != [] && HeadAt(ref, txns, |txns|) == Some(RecordCursor(ref, records[|records| - 1]))
  {
    if txns == [] {
    } else {
      var n := |txns| - 1;
      var before, t := txns[..n], txns[n];
      SliceWellFormed(ref, txns, 0, n);
      RecordsAscend(ref, before);
      assert before + [t] == txns;
      FlattenFrontSnoc(before, t);
      TransactionAscends(ref, t);
      if n > 0 {
        assert Before(ref, txns[n - 1], txns[n]);
        assert HeadAt(ref, before, n) == TransactionCursor(ref, txns[n - 1]);
      }
      Join(ref, FlattenFront(before), t);
    }
  }

  /** Every record names this journal and a position in it. */
  ghost predicate Identified(ref: JournalRef, records: seq<Record>) {
    forall i :: 0 <= i < |records| ==> records[i].sequence != 0 && (records[i].Native? ==> records[i].journal == ref)
  }

  lemma {:induction false} RecordsIdentified(ref: JournalRef, txns: seq<Transaction>)
    requires WellFormed(ref, txns)
    ensures Identified(ref, FlattenFront(txns))
  {
    if txns == [] {
    } else {
      var n := |txns| - 1;
      SliceWellFormed(ref, txns, 0, n);
      RecordsIdentified(ref, txns[..n]);
      assert txns[..n] + [txns[n]] == txns;
      FlattenFrontSnoc(txns[..n], txns[n]);
      var t := txns[n];
      assert ValidTransaction(ref, t);
      if t[0].Native? {
        forall i | 0 <= i < |t| ensures t[i].sequence != 0 { assert Follows(t, i); }
      }
    }
  }
}
