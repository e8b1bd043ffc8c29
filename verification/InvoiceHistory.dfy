/** What stays in a row after a write, over whole runs: an item shows its last edit, an invoice
    its last payment, a counter its last setting; and exactly when the resolvers ask and write
    (api/src/graphql/mutations.rs, api/src/dynamodb.rs). */
module InvoiceHistory {
  import opened Prelude
  import opened Money
  import opened InvoiceRows
  import opened Snapshots
  import opened InvoiceTables
  import opened InvoiceRuns

  // ---------------------------------------------------------------- when calls write

  predicate Chargeable(content: Content) {
    0 < content.quantityHundredths <= 100_000_000 && 0 <= content.unitPriceCents <= 1_000_000_000
  }

  /** An item is created exactly for a chargeable content under an id that is not in use. */
  lemma {:induction false} NewItemWritesIff(r: Run, i: nat)
    requires IsRun(r) && i < |r.calls| && r.calls[i].NewItem?
    ensures Wrote(r, i) <==> Chargeable(r.calls[i].content) && r.calls[i].id !in r.states[i].items
  {
    assert StepOk(r, i);
  }

  /** An edit writes exactly when its content is chargeable, the item it read is still there and on
      the same invoice, if on any, and that invoice was a draft when read and still is. */
  lemma {:induction false} EditWritesIff(r: Run, i: nat)
    requires IsRun(r) && i < |r.calls| && r.calls[i].EditItem?
    ensures r.calls[i].readAt <= i && r.calls[i].invoiceReadAt <= i
    ensures var c, t := r.calls[i], r.states[i];
            var read, invoices := r.states[c.readAt].items, r.states[c.invoiceReadAt].invoices;
            Wrote(r, i) <==>
              && Chargeable(c.content) && c.id in read && c.id in t.items
              && t.items[c.id].invoiceId == read[c.id].invoiceId
              && (read[c.id].invoiceId.Some? ==>
                    var on := read[c.id].invoiceId.value;
                    && on in invoices && invoices[on].status == Draft
                    && on in t.invoices && t.invoices[on].status == Draft)
  {
    assert StepOk(r, i);
  }

  /** An item goes away exactly when it was read on no invoice and is still there and on none. */
  lemma {:induction false} DropWritesIff(r: Run, i: nat)
    requires IsRun(r) && i < |r.calls| && r.calls[i].DropItem?
    ensures r.calls[i].readAt <= i
    ensures var c, t := r.calls[i], r.states[i];
            var read := r.states[c.readAt].items;
            Wrote(r, i) <==>
              c.id in read && read[c.id].invoiceId == None && c.id in t.items && t.items[c.id].invoiceId == None
  {
    assert StepOk(r, i);
  }

  /** A new invoice is written exactly for one to fifty different items that are all unbilled
      and of its project. */
  lemma {:induction false} NewInvoiceWritesIff(r: Run, i: nat)
    requires IsRun(r) && i < |r.calls| && r.calls[i].NewInvoice?
    ensures var c, t := r.calls[i], r.states[i];
            Wrote(r, i) <==>
              && 0 < |c.itemIds| <= 50 && Distinct(c.itemIds)
              && forall x :: x in c.itemIds ==>
                   x in t.items && t.items[x].invoiceId == None && t.items[x].projectId == c.projectId
  {
    assert StepOk(r, i);
    var c, t := r.calls[i], r.states[i];
    assert c.id !in t.invoices;
    assert forall x :: CanAttach(t, x, c.projectId) <==>
                         x in t.items && t.items[x].invoiceId == None && t.items[x].projectId == c.projectId;
  }

  /** Exactly when the resolvers of the guarded calls let a call through, on the row they read. */
  lemma {:induction false} AsksIff(r: Run, i: nat)
    requires IsRun(r) && i < |r.calls|
    requires r.calls[i].Attach? || r.calls[i].Detach? || r.calls[i].Discard?
    ensures r.calls[i].readAt <= i
    ensures var c := r.calls[i];
            var read := r.states[c.readAt].invoices;
            OpOf(r, i).Some? <==>
              && c.id in read && read[c.id].status == Draft
              && match c
                 case Attach(_, _, ids, _) =>
                   && ids != [] && Distinct(ids) && |read[c.id].itemIds| + |ids| <= 50
                   && forall x :: x in ids ==> x !in read[c.id].itemIds
                 case Detach(_, _, ids, _) => ids != [] && Distinct(ids) && forall x :: x in ids ==> x in read[c.id].itemIds
                 case Discard(_, _, order) => Distinct(order) && forall x :: x in order <==> x in read[c.id].itemIds
                 case _ => false
  {
    assert StepOk(r, i);
    var c := r.calls[i];
    var read := r.states[c.readAt].invoices;
    if c.id in read && !c.Discard? {
      DisjointIff(c.itemIds, read[c.id].itemIds);
    } else if c.id in read {
      ListsIff(c.order, read[c.id].itemIds);
    }
  }

  /** And of a finalize: it read a draft with items, every one of them on it at its own read, and
      their charges with GST come to no more than the largest safe total. */
  lemma {:induction false} FreezeAsksIff(r: Run, i: nat)
    requires IsRun(r) && i < |r.calls| && r.calls[i].Freeze?
    ensures ReadsEarlier(r.calls[i], i)
    ensures var c, states := r.calls[i], r.states[..i + 1];
            OpOf(r, i).Some? <==>
              && IsDraft(states[c.readAt], c.id) && c.order != [] && Distinct(c.order)
              && (forall x :: x in c.order <==> x in states[c.readAt].invoices[c.id].itemIds)
              && ItemsRead(states, c.id, c.order, c.itemReadAt)
              && TotalCents(Charges(RowsRead(states, c.id, c.order, c.itemReadAt)), c.gstRegistered) <= 9_007_199_254_740_991
  {
    assert StepOk(r, i);
    var c, states := r.calls[i], r.states[..i + 1];
    if IsDraft(states[c.readAt], c.id) {
      ListsIff(c.order, states[c.readAt].invoices[c.id].itemIds);
      if FreezeReadsAgree(states, c) {
        SnapshotTotal(c.gstRegistered, RowsRead(states, c.id, c.order, c.itemReadAt), ToU32(NumberFrom(r, c.allocAt)),
                      c.issueDate);
      }
    }
  }

  lemma {:induction false} DisjointIff(ids: seq<Id>, there: set<Id>)
    ensures Elements(ids) !! there <==> forall x :: x in ids ==> x !in there
    ensures Elements(ids) <= there <==> forall x :: x in ids ==> x in there
  {
    assert forall x :: x in Elements(ids) <==> x in ids;
  }

  lemma {:induction false} ListsIff(order: seq<Id>, ids: set<Id>)
    ensures Lists(order, ids) <==> Distinct(order) && forall x :: x in order <==> x in ids
  {
    assert forall x :: x in Elements(order) <==> x in order;
  }

  /** A payment writes exactly when the invoice was finalized when read; it then still is. */
  lemma {:induction false} PayWritesIff(r: Run, i: nat)
    requires IsRun(r) && i < |r.calls| && (r.calls[i].Pay? || r.calls[i].CachePdf?)
    ensures r.calls[i].readAt <= i
    ensures var c := r.calls[i];
            var read := r.states[c.readAt].invoices;
            Wrote(r, i) <==> c.id in read && read[c.id].status == Finalized
  {
    assert StepOk(r, i);
    var c := r.calls[i];
    if IsFinalized(r.states[c.readAt], c.id) {
      FinalizedForever(r, c.readAt, i, c.id);
    }
  }

  /** The counter is set exactly to a number from 1 on that no allocation has passed. */
  lemma {:induction false} SetNextWritesIff(r: Run, i: nat)
    requires IsRun(r) && i < |r.calls| && r.calls[i].SetNextNumber?
    ensures Wrote(r, i) <==> 1 <= r.calls[i].next && NextNumber(r.states[i], r.calls[i].instanceId) <= r.calls[i].next
  {
    assert StepOk(r, i);
  }

  // ---------------------------------------------------------------- the last edit of an item

  /** Step `i` gave the item its content. */
  predicate SetsContent(r: Run, i: nat, id: Id)
    requires IsRun(r) && i < |r.calls|
  {
    Wrote(r, i) && (r.calls[i].NewItem? || r.calls[i].EditItem?) && r.calls[i].id == id
  }

  predicate Removes(r: Run, i: nat, id: Id)
    requires IsRun(r) && i < |r.calls|
  {
    Wrote(r, i) && r.calls[i].DropItem? && r.calls[i].id == id
  }

  /** Right after it was written, the item has exactly the content of the call and its time; an
      edit keeps its instance, project, invoice and creation. */
  lemma {:induction false} ContentWritten(r: Run, i: nat, id: Id)
    requires IsRun(r) && i < |r.calls| && SetsContent(r, i, id)
    ensures id in r.states[i + 1].items
    ensures var c, row := r.calls[i], r.states[i + 1].items[id];
            && row.content == c.content && row.updatedAt == c.now
            && (c.NewItem? ==>
                  && row.instanceId == c.instanceId && row.projectId == c.projectId && row.invoiceId == None
                  && row.createdBy == c.userId && row.createdAt == c.now)
            && (c.EditItem? ==>
                  id in r.states[i].items && row == r.states[i].items[id].(content := c.content, updatedAt := c.now))
    ensures forall x :: x != id ==> (x in r.states[i + 1].items <==> x in r.states[i].items)
    ensures forall x :: x != id && x in r.states[i].items ==> r.states[i + 1].items[x] == r.states[i].items[x]
  {
    assert StepOk(r, i);
  }

  /** Any other step but a removal keeps everything of an item except its invoice. */
  lemma {:induction false} ContentStep(r: Run, i: nat, id: Id)
    requires IsRun(r) && i < |r.calls| && id in r.states[i].items && !SetsContent(r, i, id)
    ensures id in r.states[i + 1].items <==> !Removes(r, i, id)
    ensures id in r.states[i + 1].items ==>
              r.states[i + 1].items[id].(invoiceId := None) == r.states[i].items[id].(invoiceId := None)
  {
    var op := StepOf(r, i);
    if op.Some? {
      OpKind(r, i);
      OtherOpKeepsItem(r.states[i], op.value, id);
    }
  }

  /** Which calls ask for the writes that touch an item's content, and a payment. */
  lemma {:induction false} OpKind(r: Run, i: nat)
    requires IsRun(r) && i < |r.calls| && OpOf(r, i).Some?
    ensures var c, op := r.calls[i], OpOf(r, i).value;
            && (op.CreateItem? ==> c.NewItem? && c.id == op.id)
            && (op.UpdateItem? ==> c.EditItem? && c.id == op.id)
            && (op.DeleteItem? <==> c.DropItem?) && (op.DeleteItem? ==> c.id == op.id)
            && (op.SetPaid? <==> c.Pay?) && (op.SetPaid? ==> c.id == op.id)
            && (op.Increment? ==> c.Allocate? && c.instanceId == op.instanceId)
            && (op.SetNext? ==> c.SetNextNumber? && c.instanceId == op.instanceId)
  {
    assert StepOk(r, i);
  }

  lemma {:induction false} OtherOpKeepsItem(t: Tables, op: Op, id: Id)
    requires Commits(t, op) && id in t.items && !((op.CreateItem? || op.UpdateItem?) && op.id == id)
    ensures id in Applied(t, op).items <==> !(op.DeleteItem? && op.id == id)
    ensures id in Applied(t, op).items ==>
              Applied(t, op).items[id].(invoiceId := None) == t.items[id].(invoiceId := None)
  {}

  lemma {:induction false} OtherOpKeepsPaid(t: Tables, op: Op, id: Id)
    requires Commits(t, op) && id in Applied(t, op).invoices && !(op.SetPaid? && op.id == id)
    ensures Applied(t, op).invoices[id].paidDate == if id in t.invoices then t.invoices[id].paidDate else None
  {}

  /** From one creation or edit of an item to the next edit or removal, the item is there with
      the content of that call, whatever else happens. */
  lemma {:induction false} LastEditShows(r: Run, i: nat, k: nat, id: Id)
    requires IsRun(r) && i < k < |r.states| && SetsContent(r, i, id)
    requires forall m :: i < m < k ==> !SetsContent(r, m, id) && !Removes(r, m, id)
    ensures id in r.states[k].items
    ensures r.states[k].items[id].content == r.calls[i].content && r.states[k].items[id].updatedAt == r.calls[i].now
  {
    ContentWritten(r, i, id);
    if k > i + 1 {
      LastEditShows(r, i, k - 1, id);
      ContentStep(r, k - 1, id);
    }
  }

  /** And in every state every item shows the last call that gave it a content. */
  lemma {:induction false} ContentOrigin(r: Run, k: nat, id: Id) returns (i: nat)
    requires IsRun(r) && k < |r.states| && id in r.states[k].items
    ensures i < k && SetsContent(r, i, id)
    ensures forall m :: i < m < k ==> !SetsContent(r, m, id) && !Removes(r, m, id)
    ensures r.states[k].items[id].content == r.calls[i].content && r.states[k].items[id].updatedAt == r.calls[i].now
  {
    assert k > 0;
    if SetsContent(r, k - 1, id) {
      i := k - 1;
      ContentWritten(r, i, id);
    } else {
      OnlyCreationAdds(r, k - 1, id);
      i := ContentOrigin(r, k - 1, id);
      ContentStep(r, k - 1, id);
    }
  }

  lemma {:induction false} OnlyCreationAdds(r: Run, i: nat, id: Id)
    requires IsRun(r) && i < |r.calls| && id in r.states[i + 1].items && !SetsContent(r, i, id)
    ensures id in r.states[i].items
  {
    var op := StepOf(r, i);
    if op.Some? {
      OpKind(r, i);
      OnlyCreateAddsItem(r.states[i], op.value, id);
    }
  }

  lemma {:induction false} OnlyCreateAddsItem(t: Tables, op: Op, id: Id)
    requires Commits(t, op) && id in Applied(t, op).items && !(op.CreateItem? && op.id == id)
    ensures id in t.items
  {}

  // ---------------------------------------------------------------- the last payment

  predicate SetsPaid(r: Run, i: nat, id: Id)
    requires IsRun(r) && i < |r.calls|
  {
    Wrote(r, i) && r.calls[i].Pay? && r.calls[i].id == id
  }

  lemma {:induction false} PaidStep(r: Run, i: nat, id: Id)
    requires IsRun(r) && i < |r.calls| && IsFinalized(r.states[i], id)
    ensures id in r.states[i + 1].invoices
    ensures r.states[i + 1].invoices[id].paidDate
            == if SetsPaid(r, i, id) then r.calls[i].paidDate else r.states[i].invoices[id].paidDate
  {
    var op := StepOf(r, i);
    if op.Some? {
      OpKind(r, i);
      FinalizedSurvives(r.states[i], op.value, id);
      if op.value.SetPaid? && op.value.id == id {
        PaidWritten(r, i);
      } else {
        OtherOpKeepsPaid(r.states[i], op.value, id);
      }
    }
  }

  lemma {:induction false} PaidWritten(r: Run, i: nat)
    requires IsRun(r) && i < |r.calls| && Wrote(r, i) && OpOf(r, i).value.SetPaid?
    ensures r.calls[i].Pay? && r.calls[i].id in r.states[i + 1].invoices
    ensures r.states[i + 1].invoices[r.calls[i].id].paidDate == r.calls[i].paidDate
  {
    assert StepOk(r, i);
  }

  /** After a payment was recorded the invoice shows the date it was given, until the next one. */
  lemma {:induction false} LastPaymentShows(r: Run, i: nat, k: nat, id: Id)
    requires IsRun(r) && i < k < |r.states| && SetsPaid(r, i, id)
    requires forall m :: i < m < k ==> !SetsPaid(r, m, id)
    ensures id in r.states[k].invoices && r.states[k].invoices[id].paidDate == r.calls[i].paidDate
  {
    assert StepOk(r, i);
    if k == i + 1 {
      PaidStep(r, i, id);
    } else {
      LastPaymentShows(r, i, k - 1, id);
      FinalizedForever(r, i, k - 1, id);
      PaidStep(r, k - 1, id);
    }
  }

  /** Until the first payment a finalized invoice shows none. */
  lemma {:induction false} UnpaidShowsNothing(r: Run, k: nat, id: Id)
    requires IsRun(r) && k < |r.states| && id in r.states[k].invoices
    requires forall m :: 0 <= m < k ==> !SetsPaid(r, m, id)
    ensures r.states[k].invoices[id].paidDate == None
  {
    assert k > 0;
    if id in r.states[k - 1].invoices {
      UnpaidShowsNothing(r, k - 1, id);
    }
    UnpaidStep(r, k - 1, id);
  }

  lemma {:induction false} UnpaidStep(r: Run, i: nat, id: Id)
    requires IsRun(r) && i < |r.calls| && id in r.states[i + 1].invoices && !SetsPaid(r, i, id)
    requires id in r.states[i].invoices ==> r.states[i].invoices[id].paidDate == None
    ensures r.states[i + 1].invoices[id].paidDate == None
  {
    var op := StepOf(r, i);
    if op.Some? {
      OpKind(r, i);
      OtherOpKeepsPaid(r.states[i], op.value, id);
    }
  }

  // ---------------------------------------------------------------- the numbers

  /** What the database answered at step `i`. */
  function ReplyTo(r: Run, i: nat): Option<Reply>
    requires IsRun(r) && i < |r.calls|
  {
    if OpOf(r, i).None? then None else Some(Exec(r.states[i], OpOf(r, i).value).1)
  }

  /** The number of an allocation is the one that was answered and stored. */
  lemma {:induction false} NumberAnswered(r: Run, i: nat)
    requires IsRun(r) && i < |r.calls| && r.calls[i].Allocate?
    ensures ReplyTo(r, i) == Some(Allocated(NumberFrom(r, i)))
    ensures var instanceId := r.calls[i].instanceId;
            && instanceId in r.states[i + 1].counters && r.states[i + 1].counters[instanceId] == NumberFrom(r, i)
            && NumberFrom(r, i)
               == if instanceId in r.states[i].counters then r.states[i].counters[instanceId] + 1 else 1
  {
    assert StepOk(r, i);
  }

  /** Step `i` moves the counter of the instance. */
  predicate MovesCounter(r: Run, i: nat, instanceId: Id)
    requires IsRun(r) && i < |r.calls|
  {
    Wrote(r, i) && (r.calls[i].Allocate? || r.calls[i].SetNextNumber?) && r.calls[i].instanceId == instanceId
  }

  lemma {:induction false} CounterStep(r: Run, i: nat, instanceId: Id)
    requires IsRun(r) && i < |r.calls| && !MovesCounter(r, i, instanceId)
    ensures NextNumber(r.states[i + 1], instanceId) == NextNumber(r.states[i], instanceId)
  {
    var op := StepOf(r, i);
    if op.Some? {
      OpKind(r, i);
      OtherOpKeepsCounter(r.states[i], op.value, instanceId);
    }
  }

  lemma {:induction false} OtherOpKeepsCounter(t: Tables, op: Op, instanceId: Id)
    requires Commits(t, op) && !((op.Increment? || op.SetNext?) && op.instanceId == instanceId)
    ensures NextNumber(Applied(t, op), instanceId) == NextNumber(t, instanceId)
  {}

  lemma {:induction false} CounterKept(r: Run, j: nat, k: nat, instanceId: Id)
    requires IsRun(r) && j <= k < |r.states| && forall m :: j <= m < k ==> !MovesCounter(r, m, instanceId)
    ensures NextNumber(r.states[k], instanceId) == NextNumber(r.states[j], instanceId)
  {
    if j < k {
      CounterKept(r, j, k - 1, instanceId);
      CounterStep(r, k - 1, instanceId);
    }
  }

  /** After the next number was set to `n`, the next allocation of the instance returns `n`, and
      after an allocation the next one returns its successor. */
  lemma {:induction false} NextAllocation(r: Run, i: nat, k: nat, instanceId: Id)
    requires IsRun(r) && i < k < |r.calls| && MovesCounter(r, i, instanceId)
    requires forall m :: i < m < k ==> !MovesCounter(r, m, instanceId)
    requires r.calls[k] == Allocate(instanceId)
    ensures NumberFrom(r, k) == if r.calls[i].SetNextNumber? then r.calls[i].next as int else NumberFrom(r, i) + 1
  {
    assert StepOk(r, i);
    CounterKept(r, i + 1, k, instanceId);
  }
}
