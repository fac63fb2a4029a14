/** Journal identities and committed cursors, shared by every component. */
module Journals {

  datatype Option<+T> = None | Some(value: T)

  datatype JournalRef = WorkspaceControl(id: string) | Session(id: string) {
    predicate Valid() { id != "" }
  }

  /** A position just after a committed transaction. */
  datatype Cursor = Cursor(journal: JournalRef, commitSeq: nat, txn: string) {
    predicate Valid() { journal.Valid() && commitSeq != 0 && txn != "" }
  }
}
