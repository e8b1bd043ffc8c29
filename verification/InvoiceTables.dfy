/** The invoicing tables and what each database call does to them in one atomic step
    (api/src/dynamodb.rs). `Exec` is the reference the store class is proved against. */
module InvoiceTables {
  import opened Prelude
  import opened InvoiceRows

  /** `counters` holds `next_invoice_number`; a missing key is a missing attribute. */
  datatype Tables = Tables(
    invoices: map<Id, Invoice>, items: map<Id, BillableItem>, counters: map<Id, nat>)

  /** `Refused` is `Ok(false)`/`Ok(None)`; `Failed` is `Err`. Neither writes anything. */
  datatype Reply = Committed | Refused | Failed | Allocated(number: nat)

  datatype Op =
    | CreateItem(id: Id, instanceId: Id, projectId: Id, content: Content, userId: Id, now: nat)
    | UpdateItem(id: Id, onInvoice: Option<Id>, content: Content, now: nat)
    | DeleteItem(id: Id)
    | CreateInvoice(id: Id, instanceId: Id, projectId: Id, itemIds: seq<Id>, userId: Id, now: nat)
    | AddItems(id: Id, projectId: Id, itemIds: seq<Id>, expected: nat, now: nat)
    | RemoveItems(id: Id, itemIds: seq<Id>, expected: nat, now: nat)
    | DeleteInvoice(id: Id, itemIds: seq<Id>, expected: nat)
    | Finalize(id: Id, expected: nat, number: nat, issueDate: string, snapshot: Snapshot,
               totalCents: int, userId: Id, now: nat)
    | SetPaid(id: Id, paidDate: Option<string>, now: nat)
    | SetPdfKey(id: Id, key: string)
    | Increment(instanceId: Id)
    | SetNext(instanceId: Id, value: nat)

  /** A transaction holds at most 100 writes, each to another row. */
  const MAX_TRANSACTION := 100

  predicate FitsTransaction(ids: seq<Id>) {
    Distinct(ids) && |ids| < MAX_TRANSACTION
  }

  predicate IsDraft(t: Tables, id: Id) {
    id in t.invoices && t.invoices[id].status == Draft
  }

  predicate IsDraftAt(t: Tables, id: Id, expected: nat) {
    IsDraft(t, id) && t.invoices[id].version == expected
  }

  predicate IsFinalized(t: Tables, id: Id) {
    id in t.invoices && t.invoices[id].status == Finalized
  }

  predicate CanAttach(t: Tables, item: Id, projectId: Id) {
    item in t.items && t.items[item].invoiceId.None? && t.items[item].projectId == projectId
  }

  predicate IsOn(t: Tables, item: Id, invoice: Id) {
    item in t.items && t.items[item].invoiceId == Some(invoice)
  }

  /** Every item in `ids` pointed at `target`; nothing else changes. */
  function Linked(items: map<Id, BillableItem>, ids: set<Id>, target: Option<Id>): map<Id, BillableItem> {
    map x | x in items :: if x in ids then items[x].(invoiceId := target) else items[x]
  }

  function NewInvoice(instanceId: Id, projectId: Id, ids: set<Id>, userId: Id, now: nat): Invoice {
    Invoice(instanceId, projectId, Draft, 1, ids, userId, now, now,
            None, None, None, None, None, None, None, None)
  }

  /** A draft after one version-bumping write. */
  function Bumped(inv: Invoice, ids: set<Id>, now: nat): Invoice {
    inv.(version := inv.version + 1, itemIds := ids, updatedAt := now)
  }

  predicate Valid(op: Op) {
    match op
    case CreateInvoice(_, _, _, ids, _, _) => FitsTransaction(ids)
    case AddItems(_, _, ids, _, _) => FitsTransaction(ids) && ids != []
    case RemoveItems(_, ids, _, _) => FitsTransaction(ids) && ids != []
    case DeleteInvoice(_, ids, _) => FitsTransaction(ids)
    case _ => true
  }

  predicate Allowed(t: Tables, op: Op) {
    match op
    case CreateItem(id, _, _, _, _, _) => id !in t.items
    case UpdateItem(id, None, _, _) => id in t.items && t.items[id].invoiceId.None?
    case UpdateItem(id, Some(inv), _, _) => IsOn(t, id, inv) && IsDraft(t, inv)
    case DeleteItem(id) => id in t.items && t.items[id].invoiceId.None?
    case CreateInvoice(id, _, projectId, ids, _, _) =>
      id !in t.invoices && forall x :: x in ids ==> CanAttach(t, x, projectId)
    case AddItems(id, projectId, ids, expected, _) =>
      IsDraftAt(t, id, expected) && forall x :: x in ids ==> CanAttach(t, x, projectId)
    case RemoveItems(id, ids, expected, _) =>
      IsDraftAt(t, id, expected) && forall x :: x in ids ==> IsOn(t, x, id)
    case DeleteInvoice(id, ids, expected) =>
      IsDraftAt(t, id, expected) && forall x :: x in ids ==> IsOn(t, x, id)
    case Finalize(id, expected, _, _, _, _, _, _) => IsDraftAt(t, id, expected)
    case SetPaid(id, _, _) => IsFinalized(t, id)
    case SetPdfKey(id, _) => IsFinalized(t, id)
    case Increment(_) => true
    case SetNext(instanceId, value) => instanceId in t.counters ==> t.counters[instanceId] <= value
  }

  function NextNumber(t: Tables, instanceId: Id): nat {
    (if instanceId in t.counters then t.counters[instanceId] else 0) + 1
  }

  function Applied(t: Tables, op: Op): Tables
    requires Allowed(t, op)
  {
    match op
    case CreateItem(id, instanceId, projectId, content, userId, now) =>
      t.(items := t.items[id := BillableItem(instanceId, projectId, content, None, userId, now, now)])
    case UpdateItem(id, on, content, now) =>
      var t' := t.(items := t.items[id := t.items[id].(content := content, updatedAt := now)]);
      if on.None? then t'
      else
        var inv := t.invoices[on.value];
        t'.(invoices := t.invoices[on.value := Bumped(inv, inv.itemIds, now)])
    case DeleteItem(id) => t.(items := t.items - {id})
    case CreateInvoice(id, instanceId, projectId, ids, userId, now) =>
      t.(invoices := t.invoices[id := NewInvoice(instanceId, projectId, Elements(ids), userId, now)],
         items := Linked(t.items, Elements(ids), Some(id)))
    case AddItems(id, _, ids, _, now) =>
      var inv := t.invoices[id];
      t.(invoices := t.invoices[id := Bumped(inv, inv.itemIds + Elements(ids), now)],
         items := Linked(t.items, Elements(ids), Some(id)))
    case RemoveItems(id, ids, _, now) =>
      var inv := t.invoices[id];
      t.(invoices := t.invoices[id := Bumped(inv, inv.itemIds - Elements(ids), now)],
         items := Linked(t.items, Elements(ids), None))
    case DeleteInvoice(id, ids, _) =>
      t.(invoices := t.invoices - {id}, items := Linked(t.items, Elements(ids), None))
    case Finalize(id, _, number, issueDate, snapshot, totalCents, userId, now) =>
      var inv := t.invoices[id];
      t.(invoices := t.invoices[id := Bumped(inv, inv.itemIds, now).(
        status := Finalized, number := Some(number), issueDate := Some(issueDate),
        snapshot := Some(snapshot), totalCents := Some(totalCents),
        finalizedAt := Some(now), finalizedBy := Some(userId))])
    case SetPaid(id, paidDate, now) =>
      t.(invoices := t.invoices[id := t.invoices[id].(paidDate := paidDate, updatedAt := now)])
    case SetPdfKey(id, key) =>
      t.(invoices := t.invoices[id := t.invoices[id].(pdfKey := Some(key))])
    case Increment(instanceId) =>
      t.(counters := t.counters[instanceId := NextNumber(t, instanceId)])
    case SetNext(instanceId, value) =>
      t.(counters := t.counters[instanceId := value])
  }

  predicate Commits(t: Tables, op: Op) { Valid(op) && Allowed(t, op) }

  function Exec(t: Tables, op: Op): (Tables, Reply) {
    if !Valid(op) || (op.CreateItem? && !Allowed(t, op)) then (t, Failed)
    else if !Allowed(t, op) then (t, Refused)
    else if op.Increment? then (Applied(t, op), Allocated(NextNumber(t, op.instanceId)))
    else (Applied(t, op), Committed)
  }
}
