/**
 * The administration page (src/app/admin/page.tsx): the status column of the
 * validation table, and `handleValidate`, guarded by the `processingId` of the
 * validation in flight.
 */
module Admin {
  import opened Common
  import opened Ledger

  /** What the table's last column shows for a record. */
  datatype StatusCell = Actions | Badge(text: string)

  /** Approve/reject buttons for a pending record; otherwise a badge, "Recusado" for anything not approved. */
  function CellFor(status: Option<Status>): (c: StatusCell)
    ensures c.Actions? <==> status == Some(Pending)
    ensures status == Some(Approved) ==> c == Badge("Aprovado")
    ensures status != Some(Pending) && status != Some(Approved) ==> c == Badge("Recusado")
  {
    if status == Some(Pending) then Actions
    else if status == Some(Approved) then Badge("Aprovado")
    else Badge("Recusado")
  }

  class AdminPanel {
    const store: Store
    var processingId: Option<DocId>

    constructor (store: Store)
      ensures this.store == store && processingId.None?
    {
      this.store := store;
      processingId := None;
    }

    /**
     * `handleValidate` up to the settling of its transaction: return at once while
     * another validation is in flight; otherwise mark this record as in flight and run
     * the approve/reject transaction. It is offered only for pending records.
     */
    method HandleValidate(rec: ActivityRecord, v: Verdict, now: int) returns (r: Result<()>)
      requires CellFor(rec.status) == Actions
      modifies this, store
      ensures old(processingId).Some? ==>
        r == Err(Busy) && processingId == old(processingId) && store.View() == old(store.View())
      ensures old(processingId).None? ==>
        && processingId == Some(rec.id)
        && Atomic(ApplyValidation(old(store.View()), rec, v, now), old(store.View()), store.View(), r)
    {
      if processingId.Some? {
        return Err(Busy);
      }
      processingId := Some(rec.id);
      r := store.Validate(rec, v, now);
    }

    /** The `finally` clause: the validation is no longer in flight. */
    method Settle()
      modifies this
      ensures processingId.None?
    {
      processingId := None;
    }
  }

  /**
   * Rejecting a pending record changes neither balance; approving it raises both by
   * exactly its points.
   */
  lemma ValidationBalances(l: Ledger, rec: ActivityRecord, now: int)
    requires rec.userId in l.accounts && (rec.userId, rec.id) in l.records
    ensures ApplyValidation(l, rec, Reject, now).Ok?
    ensures ApplyValidation(l, rec, Reject, now).value.accounts == l.accounts
    ensures var a := ApplyValidation(l, rec, Approve, now).value.accounts[rec.userId];
      && Balance(a) == Balance(l.accounts[rec.userId]) + rec.pointsEarned
      && Lifetime(a) == Lifetime(l.accounts[rec.userId]) + rec.pointsEarned
  {
  }
}
