/** What the runs of the invoicing protocol guarantee: the frozen snapshot is the invoice
    it claims to be, prepared writes commit exactly when nothing was touched, and invoice
    numbers are shared only past the end of the 32-bit range. */
module InvoiceTheorems {
  import opened Prelude
  import opened Money
  import opened InvoiceRows
  import opened Snapshots
  import opened InvoiceTables
  import opened InvoiceRuns

  // ---------------------------------------------------------------- row shapes

  predicate BlankOutcome(inv: Invoice) {
    inv.number.None? && inv.issueDate.None? && inv.snapshot.None? && inv.totalCents.None?
    && inv.finalizedAt.None? && inv.finalizedBy.None? && inv.paidDate.None? && inv.pdfKey.None?
  }

  predicate FullOutcome(inv: Invoice) {
    && inv.number.Some? && inv.issueDate.Some? && inv.snapshot.Some? && inv.totalCents.Some?
    && inv.finalizedAt.Some? && inv.finalizedBy.Some?
    && inv.totalCents.value == inv.snapshot.value.totalCents && TotalIsSafe(inv.totalCents.value)
  }

  predicate HealthyInvoice(inv: Invoice) {
    && |inv.itemIds| <= MAX_INVOICE_ITEMS
    && if inv.status == Draft then BlankOutcome(inv) else FullOutcome(inv)
  }

  /** Items carry chargeable values; an invoice has at most fifty items, nothing of a
      finalized invoice while it is a draft and everything of one afterwards. */
  predicate Healthy(t: Tables) {
    && (forall x :: x in t.items ==> t.items[x].content.Charge().InRange())
    && (forall id :: id in t.invoices ==> HealthyInvoice(t.invoices[id]))
  }

  lemma {:induction false} StepKeepsHealthy(t: Tables, op: Op)
    requires Healthy(t) && Commits(t, op)
    requires op.CreateItem? || op.UpdateItem? ==> op.content.Charge().InRange()
    requires op.CreateInvoice? ==> |op.itemIds| <= MAX_INVOICE_ITEMS
    requires op.AddItems? ==> |t.invoices[op.id].itemIds| + |op.itemIds| <= MAX_INVOICE_ITEMS
    requires op.Finalize? ==> op.totalCents == op.snapshot.totalCents && TotalIsSafe(op.totalCents)
    ensures Healthy(Applied(t, op))
  {
    forall id | id in Applied(t, op).invoices
      ensures HealthyInvoice(Applied(t, op).invoices[id])
    {
      InvoiceStaysHealthy(t, op, id);
    }
    ItemsStayInRange(t, op);
  }

  lemma {:induction false} ItemsStayInRange(t: Tables, op: Op)
    requires Healthy(t) && Commits(t, op)
    requires op.CreateItem? || op.UpdateItem? ==> op.content.Charge().InRange()
    ensures forall x :: x in Applied(t, op).items ==> Applied(t, op).items[x].content.Charge().InRange()
  {}

  lemma {:induction false} InvoiceStaysHealthy(t: Tables, op: Op, id: Id)
    requires id in t.invoices ==> HealthyInvoice(t.invoices[id])
    requires Commits(t, op) && id in Applied(t, op).invoices
    requires op.CreateInvoice? ==> |op.itemIds| <= MAX_INVOICE_ITEMS
    requires op.AddItems? ==> |t.invoices[op.id].itemIds| + |op.itemIds| <= MAX_INVOICE_ITEMS
    requires op.Finalize? ==> op.totalCents == op.snapshot.totalCents && TotalIsSafe(op.totalCents)
    ensures HealthyInvoice(Applied(t, op).invoices[id])
  {
    if op.CreateInvoice? || op.AddItems? {
      SizeOfElements(op.itemIds);
    }
    if op.RemoveItems? && id == op.id {
      SubsetSize(t.invoices[id].itemIds - Elements(op.itemIds), t.invoices[id].itemIds);
    }
    if op.AddItems? && id == op.id {
      UnionSize(t.invoices[id].itemIds, Elements(op.itemIds));
    }
  }

  lemma {:induction false} SubsetSize(a: set<Id>, b: set<Id>)
    requires a <= b
    ensures |a| <= |b|
  {
    assert b == a + (b - a);
  }

  lemma {:induction false} UnionSize(a: set<Id>, b: set<Id>)
    ensures |a + b| <= |a| + |b|
  {
    assert a + b == a + (b - a);
    SubsetSize(b - a, b);
  }

  /** Every state of every run is healthy. The item cap holds although it was checked on an
      earlier read: the version the write is conditioned on pins the set that was counted. */
  lemma {:induction false} AlwaysHealthy(r: Run, k: nat)
    requires IsRun(r) && k < |r.states|
    ensures Healthy(r.states[k])
  {
    if k > 0 {
      AlwaysHealthy(r, k - 1);
      LinksHold(r, k - 1);
      var op := StepOf(r, k - 1);
      if op.Some? {
        AddWithinCap(r, k - 1, op.value);
        StepKeepsHealthy(r.states[k - 1], op.value);
      }
    }
  }

  lemma {:induction false} AddWithinCap(r: Run, i: nat, op: Op)
    requires IsRun(r) && i < |r.calls| && LinksUpTo(r, i)
    requires Commits(r.states[i], op) && WellPrepared(r, i, op)
    ensures op.AddItems? ==> |r.states[i].invoices[op.id].itemIds| + |op.itemIds| <= MAX_INVOICE_ITEMS
  {
    if op.AddItems? {
      var a :| 0 <= a <= i && IsDraftAt(r.states[a], op.id, op.expected)
               && op.projectId == r.states[a].invoices[op.id].projectId
               && NewIdsOk(op.itemIds, r.states[a].invoices[op.id].itemIds);
      VersionOrder(r, a, i, op.id);
    }
  }

  // ---------------------------------------------------------------- fidelity

  predicate InTables(t: Tables, order: seq<Id>) {
    forall k :: 0 <= k < |order| ==> order[k] in t.items
  }

  /** The rows of a list of items in one state. */
  function RowsIn(t: Tables, order: seq<Id>): seq<BillableItem>
    requires InTables(t, order)
  {
    seq(|order|, k requires 0 <= k < |order| => t.items[order[k]])
  }

  /** The finalizing write: conditioned on the draft as read, it records the number, the
      date and what was built from the reads, and leaves the items alone. */
  predicate Freezes(t: Tables, t': Tables, states: seq<Tables>, c: Call, number: nat)
    requires c.Freeze? && c.readAt < |states| && ReadBetween(c.order, c.itemReadAt, 0, |states| - 1)
  {
    && FreezeReadsAgree(states, c)
    && IsDraftAt(t, c.id, states[c.readAt].invoices[c.id].version)
    && IsFinalized(t', c.id) && t'.items == t.items
    && var inv, inv' := t.invoices[c.id], t'.invoices[c.id];
    && inv'.itemIds == inv.itemIds && inv'.instanceId == inv.instanceId
    && inv'.number == Some(number) && inv'.issueDate == Some(c.issueDate)
    && inv'.snapshot == Some(Built(states, c, number))
    && inv'.totalCents == Some(inv'.snapshot.value.totalCents)
    && inv'.finalizedAt == Some(c.now) && inv'.finalizedBy == Some(c.userId)
  }

  function FreezeNumber(r: Run, i: nat): nat
    requires IsRun(r) && i < |r.calls| && r.calls[i].Freeze?
  {
    ToU32(AllocatedFor(r, i))
  }

  /** What the counter returned to a finalize. */
  function AllocatedFor(r: Run, i: nat): nat
    requires IsRun(r) && i < |r.calls| && r.calls[i].Freeze?
  {
    assert StepOk(r, i);
    NumberFrom(r, r.calls[i].allocAt)
  }

  lemma {:induction false} FreezeWrote(r: Run, i: nat)
    requires IsRun(r) && i < |r.calls| && r.calls[i].Freeze? && Wrote(r, i)
    ensures ReadsEarlier(r.calls[i], i)
    ensures Freezes(r.states[i], r.states[i + 1], r.states[..i + 1], r.calls[i], FreezeNumber(r, i))
  {
    var op := StepOf(r, i);
    assert StepOk(r, i);
    FreezeApplied(r.states[i], r.states[..i + 1], r.calls[i], FreezeNumber(r, i), op.value);
  }

  lemma {:induction false} FreezeApplied(t: Tables, states: seq<Tables>, c: Call, number: nat, op: Op)
    requires c.Freeze? && c.readAt < |states| && ReadBetween(c.order, c.itemReadAt, 0, |states| - 1)
    requires PrepareFreeze(states, c, number) == Some(op) && Commits(t, op)
    ensures Freezes(t, Applied(t, op), states, c, number)
  {}

  /** What a finalize read, piece by piece and at different times, is what the tables hold
      when its write succeeds. */
  lemma {:induction false} ReadsStillCurrent(r: Run, i: nat)
    requires IsRun(r) && i < |r.calls| && r.calls[i].Freeze? && Wrote(r, i)
    ensures ReadsEarlier(r.calls[i], i) && FreezeReadsAgree(r.states[..i + 1], r.calls[i])
    ensures var c, t := r.calls[i], r.states[i];
            && SameContents(r.states[c.readAt], t, c.id)
            && Lists(c.order, t.invoices[c.id].itemIds)
            && InTables(t, c.order)
            && RowsRead(r.states[..i + 1], c.id, c.order, c.itemReadAt) == RowsIn(t, c.order)
  {
    FreezeWrote(r, i);
    LinksHold(r, i);
    var c := r.calls[i];
    VersionOrder(r, c.readAt, i, c.id);
    RowsUntouched(r, c.readAt, i, c.id, c.order, c.itemReadAt);
  }

  lemma {:induction false} RowsUntouched(r: Run, a: nat, i: nat, id: Id, order: seq<Id>, readAt: seq<nat>)
    requires IsRun(r) && a <= i < |r.states| && LinksUpTo(r, i)
    requires id in r.states[a].invoices && id in r.states[i].invoices
    requires r.states[a].invoices[id].version == r.states[i].invoices[id].version
    requires Elements(order) == r.states[a].invoices[id].itemIds
    requires ReadBetween(order, readAt, a, i)
    requires ItemsRead(r.states[..i + 1], id, order, readAt)
    ensures InTables(r.states[i], order)
    ensures RowsRead(r.states[..i + 1], id, order, readAt) == RowsIn(r.states[i], order)
  {
    forall k | 0 <= k < |order|
      ensures order[k] in r.states[i].items
      ensures r.states[readAt[k]].items[order[k]] == r.states[i].items[order[k]]
    {
      assert order[k] in Elements(order);
      UntouchedBetween(r, a, readAt[k], i, id);
    }
  }

  /** Two states with the same version of an invoice agree with every state in between. */
  lemma {:induction false} UntouchedBetween(r: Run, a: nat, m: nat, i: nat, id: Id)
    requires IsRun(r) && a <= m <= i < |r.states| && LinksUpTo(r, i)
    requires id in r.states[a].invoices && id in r.states[i].invoices
    requires r.states[a].invoices[id].version == r.states[i].invoices[id].version
    ensures SameContents(r.states[a], r.states[m], id) && SameContents(r.states[m], r.states[i], id)
  {
    if id !in r.states[m].invoices {
      NeverBack(r, a, m, i, id);
    }
    VersionOrder(r, a, m, id);
    VersionOrder(r, m, i, id);
  }

  /** `inv` carries the snapshot and total built from the item rows in `t`. */
  ghost predicate BuiltFrom(t: Tables, inv: Invoice, order: seq<Id>, gstRegistered: bool) {
    && Lists(order, inv.itemIds)
    && InTables(t, order)
    && inv.number.Some? && inv.issueDate.Some?
    && inv.snapshot == Some(BuildSnapshot(gstRegistered, RowsIn(t, order), inv.number.value, inv.issueDate.value))
    && inv.totalCents == Some(inv.snapshot.value.totalCents)
  }

  /** The snapshot of `inv` has one line for each of its items, in print order, and shows, field
      by field, the item rows in `t`, the invoice's number and its date. */
  ghost predicate ShowsItems(t: Tables, inv: Invoice, order: seq<Id>, place: seq<nat>, gstRegistered: bool) {
    && Lists(order, inv.itemIds) && |order| == |inv.itemIds|
    && InTables(t, order)
    && inv.number.Some? && inv.issueDate.Some? && inv.snapshot.Some?
    && ShowsRows(inv.snapshot.value, RowsIn(t, order), place, gstRegistered, inv.number.value, inv.issueDate.value)
    && inv.totalCents == Some(inv.snapshot.value.totalCents)
  }

  /** What the call of step `i` decided about the invoice it finalized. */
  ghost predicate OutcomeOf(r: Run, i: nat, inv: Invoice)
    requires IsRun(r) && i < |r.calls| && r.calls[i].Freeze?
  {
    var c := r.calls[i];
    var drawn := AllocatedFor(r, i);
    && inv.status == Finalized
    && inv.number == Some(if drawn <= 0xFFFF_FFFF then drawn else 0xFFFF_FFFF)
    && inv.issueDate == Some(c.issueDate) && inv.finalizedAt == Some(c.now) && inv.finalizedBy == Some(c.userId)
  }

  /** From the finalizing step on, the item rows stay those the snapshot was built from. */
  lemma {:induction false} RowsKept(r: Run, i: nat, k: nat, id: Id, order: seq<Id>)
    requires IsRun(r) && i < k < |r.states|
    requires IsFinalized(r.states[i + 1], id) && r.states[i + 1].items == r.states[i].items
    requires Lists(order, r.states[i + 1].invoices[id].itemIds)
    ensures id in r.states[k].invoices && Lists(order, r.states[k].invoices[id].itemIds)
    ensures InTables(r.states[i], order) && InTables(r.states[k], order)
    ensures RowsIn(r.states[i], order) == RowsIn(r.states[k], order)
  {
    FinalizedForever(r, i + 1, k, id);
    RowsSame(r.states[i], r.states[i + 1], r.states[k], id, order);
  }

  lemma {:induction false} RowsSame(s: Tables, t: Tables, u: Tables, id: Id, order: seq<Id>)
    requires s.items == t.items && SameContents(t, u, id) && Elements(order) == t.invoices[id].itemIds
    ensures InTables(s, order) && InTables(u, order) && RowsIn(s, order) == RowsIn(u, order)
  {
    forall k | 0 <= k < |order|
      ensures order[k] in t.items && order[k] in u.items && t.items[order[k]] == u.items[order[k]]
    {
      assert order[k] in Elements(order);
    }
  }

  /** A finalized invoice was finalized by one step of the run, which gave it its outcome. */
  lemma {:induction false} FinalizedBy(r: Run, k: nat, id: Id) returns (i: nat)
    requires IsRun(r) && k < |r.states| && IsFinalized(r.states[k], id)
    ensures i < k && r.calls[i].Freeze? && r.calls[i].id == id && Wrote(r, i)
    ensures id in r.states[i + 1].invoices && Frozen(r.states[k].invoices[id]) == Frozen(r.states[i + 1].invoices[id])
  {
    if IsFinalized(r.states[k - 1], id) {
      i := FinalizedBy(r, k - 1, id);
      FinalizedForever(r, k - 1, k, id);
    } else {
      i := k - 1;
      var op := StepOf(r, i);
      OnlyFinalizeFinalizes(r.states[i], op.value, id);
    }
  }

  lemma {:induction false} OnlyFinalizeFinalizes(t: Tables, op: Op, id: Id)
    requires Commits(t, op) && !IsFinalized(t, id) && IsFinalized(Applied(t, op), id)
    ensures op.Finalize? && op.id == id
  {}

  /** In every state of every run, each finalized invoice shows its item rows as they are
      in that very state: it has one line for each item, the lines are theirs in print order, and
      those that tie stand as the finalizing call read them; the subtotal is the sum of their
      charges, computed without leaving `i64`; the total is within the safe range. */
  lemma {:induction false} FinalizedShowsItems(r: Run, k: nat, id: Id) returns (i: nat, place: seq<nat>)
    requires IsRun(r) && k < |r.states| && IsFinalized(r.states[k], id)
    ensures i < k && r.calls[i].Freeze? && r.calls[i].id == id && Wrote(r, i)
    ensures var t, inv := r.states[k], r.states[k].invoices[id];
            var order, gst := r.calls[i].order, r.calls[i].gstRegistered;
            && order != [] && ShowsItems(t, inv, order, place, gst) && OutcomeOf(r, i, inv)
            && CheckedSum(Charges(SortItems(RowsIn(t, order)))) == Some(inv.snapshot.value.subtotalCents)
            && CheckedSum(Charges(RowsIn(t, order))) == Some(inv.snapshot.value.subtotalCents)
            && inv.totalCents == Some(TotalCents(Charges(RowsIn(t, order)), gst))
            && FitsI64(inv.totalCents.value) && TotalIsSafe(inv.totalCents.value)
  {
    i := FinalizedBy(r, k, id);
    var order, gst := r.calls[i].order, r.calls[i].gstRegistered;
    FreezeWrote(r, i);
    ReadsStillCurrent(r, i);
    RowsKept(r, i, k, id, order);
    AlwaysHealthy(r, k);
    TotalsOfBuilt(r.states[k], id, order, gst);
    place := ShownItems(r.states[k], id, order, gst);
  }

  lemma {:induction false} TotalsOfBuilt(t: Tables, id: Id, order: seq<Id>, gst: bool)
    requires Healthy(t) && IsFinalized(t, id) && BuiltFrom(t, t.invoices[id], order, gst)
    ensures var inv := t.invoices[id];
            && CheckedSum(Charges(SortItems(RowsIn(t, order)))) == Some(inv.snapshot.value.subtotalCents)
            && CheckedSum(Charges(RowsIn(t, order))) == Some(inv.snapshot.value.subtotalCents)
            && inv.totalCents == Some(TotalCents(Charges(RowsIn(t, order)), gst))
            && FitsI64(inv.totalCents.value) && TotalIsSafe(inv.totalCents.value)
  {
    var inv := t.invoices[id];
    SnapshotTotal(gst, RowsIn(t, order), inv.number.value, inv.issueDate.value);
    SizeOfElements(order);
    assert HealthyInvoice(inv);
    forall p | p in Charges(RowsIn(t, order))
      ensures p.InRange()
    {
      var m :| 0 <= m < |order| && p == Charges(RowsIn(t, order))[m];
      assert order[m] in t.items;
    }
    WholeInvoiceFits(Charges(RowsIn(t, order)), gst);
    PrintOrderFits(RowsIn(t, order), gst);
  }

  lemma {:induction false} ShownItems(t: Tables, id: Id, order: seq<Id>, gst: bool) returns (place: seq<nat>)
    requires Healthy(t) && IsFinalized(t, id) && BuiltFrom(t, t.invoices[id], order, gst)
    ensures ShowsItems(t, t.invoices[id], order, place, gst)
  {
    var inv := t.invoices[id];
    SizeOfElements(order);
    assert HealthyInvoice(inv);
    forall row | row in RowsIn(t, order)
      ensures row.content.Charge().InRange()
    {
      var m :| 0 <= m < |order| && row == RowsIn(t, order)[m];
      assert order[m] in t.items;
    }
    place := BuiltShowsRows(gst, RowsIn(t, order), inv.number.value, inv.issueDate.value);
  }

  /** Summing in print order, as the snapshot does, overflows nowhere either. */
  lemma {:induction false} PrintOrderFits(items: seq<BillableItem>, gst: bool)
    requires AllInRange(Charges(items)) && |items| <= MAX_INVOICE_ITEMS
    ensures CheckedSum(Charges(SortItems(items))) == Some(SumCents(Charges(items)))
  {
    var sorted := SortItems(items);
    SortItemsSpec(items);
    assert |multiset(sorted)| == |multiset(items)|;
    forall m | 0 <= m < |sorted|
      ensures Charges(sorted)[m].InRange()
    {
      assert sorted[m] in multiset(items);
      var k :| 0 <= k < |items| && items[k] == sorted[m];
      assert Charges(items)[k].InRange();
    }
    WholeInvoiceFits(Charges(sorted), gst);
    SumOfPermutation(sorted, items);
  }

  // ---------------------------------------------------------------- when writes commit

  /** The write a remove, delete or finalize resolver makes of the row it read in `t`. */
  predicate ComesFrom(t: Tables, op: Op, id: Id) {
    && IsDraft(t, id)
    && match op
       case RemoveItems(x, ids, v, _) =>
         x == id && v == t.invoices[id].version && ids != [] && Distinct(ids) && Elements(ids) <= t.invoices[id].itemIds
       case DeleteInvoice(x, ids, v) =>
         x == id && v == t.invoices[id].version && Lists(ids, t.invoices[id].itemIds)
       case Finalize(x, v, _, _, _, _, _, _) => x == id && v == t.invoices[id].version
       case _ => false
  }

  lemma {:induction false} PreparedOp(r: Run, i: nat)
    requires IsRun(r) && i < |r.calls| && OpOf(r, i).Some?
    requires r.calls[i].Detach? || r.calls[i].Discard? || r.calls[i].Freeze?
    ensures r.calls[i].readAt <= i && ComesFrom(r.states[r.calls[i].readAt], OpOf(r, i).value, r.calls[i].id)
  {
    assert StepOk(r, i);
  }

  /** A prepared remove, delete or finalize writes exactly when the invoice and every row on
      it are still as they were read. The per-item conditions never refuse on their own. */
  lemma {:induction false} WritesIffUntouched(r: Run, i: nat)
    requires IsRun(r) && i < |r.calls| && OpOf(r, i).Some?
    requires r.calls[i].Detach? || r.calls[i].Discard? || r.calls[i].Freeze?
    ensures r.calls[i].readAt <= i
    ensures Wrote(r, i) <==> SameContents(r.states[r.calls[i].readAt], r.states[i], r.calls[i].id)
  {
    PreparedOp(r, i);
    var a, id, op := r.calls[i].readAt, r.calls[i].id, OpOf(r, i).value;
    LinksHold(r, i);
    AlwaysHealthy(r, i);
    if SameContents(r.states[a], r.states[i], id) {
      UntouchedCommits(r.states[a], r.states[i], op, id);
    }
    if Commits(r.states[i], op) {
      CommittedVersion(r.states[a], r.states[i], op, id);
      VersionOrder(r, a, i, id);
    }
  }

  lemma {:induction false} CommittedVersion(t: Tables, u: Tables, op: Op, id: Id)
    requires ComesFrom(t, op, id) && Commits(u, op)
    ensures IsDraftAt(u, id, t.invoices[id].version)
  {}

  lemma {:induction false} UntouchedCommits(t: Tables, u: Tables, op: Op, id: Id)
    requires ComesFrom(t, op, id) && SameContents(t, u, id) && TwoWayLinks(u) && Healthy(u)
    ensures Commits(u, op)
  {
    assert Owns(u, id) && HealthyInvoice(u.invoices[id]);
    if op.RemoveItems? || op.DeleteInvoice? {
      SizeOfElements(op.itemIds);
      SubsetSize(Elements(op.itemIds), u.invoices[id].itemIds);
      forall x | x in op.itemIds
        ensures IsOn(u, x, id)
      {
        assert x in Elements(op.itemIds);
      }
    }
  }

  /** A prepared add writes exactly when the invoice is untouched and every item to add is
      still unbilled and of its project. */
  lemma {:induction false} AddWritesIff(r: Run, i: nat)
    requires IsRun(r) && i < |r.calls| && OpOf(r, i).Some? && r.calls[i].Attach?
    ensures r.calls[i].readAt <= i
    ensures var c := r.calls[i];
            Wrote(r, i) <==>
              && SameContents(r.states[c.readAt], r.states[i], c.id)
              && (forall x :: x in c.itemIds ==> CanAttach(r.states[i], x, r.states[i].invoices[c.id].projectId))
  {
    var c := r.calls[i];
    assert StepOk(r, i);
    assert PrepareAttach(r.states[c.readAt], c.id, c.itemIds, c.now) == OpOf(r, i);
    LinksHold(r, i);
    if c.id in r.states[i].invoices {
      VersionOrder(r, c.readAt, i, c.id);
      AddCommits(r.states[c.readAt], r.states[i], c.id, c.itemIds, c.now);
    }
  }

  lemma {:induction false} AddCommits(t: Tables, u: Tables, id: Id, ids: seq<Id>, now: nat)
    requires PrepareAttach(t, id, ids, now).Some?
    requires id in u.invoices && u.invoices[id].projectId == t.invoices[id].projectId
    ensures Commits(u, PrepareAttach(t, id, ids, now).value) <==>
              && IsDraftAt(u, id, t.invoices[id].version)
              && forall x :: x in ids ==> CanAttach(u, x, u.invoices[id].projectId)
  {}

  // ---------------------------------------------------------------- invoice numbers

  lemma {:induction false} StepKeepsCounter(t: Tables, op: Op, instanceId: Id)
    requires Commits(t, op)
    ensures NextNumber(t, instanceId) <= NextNumber(Applied(t, op), instanceId)
    ensures op == Increment(instanceId) ==> NextNumber(Applied(t, op), instanceId) == NextNumber(t, instanceId) + 1
  {}

  lemma {:induction false} CounterGrows(r: Run, j: nat, k: nat, instanceId: Id)
    requires IsRun(r) && j <= k < |r.states|
    ensures NextNumber(r.states[j], instanceId) <= NextNumber(r.states[k], instanceId)
  {
    if j < k {
      CounterGrows(r, j, k - 1, instanceId);
      var op := StepOf(r, k - 1);
      if op.Some? {
        StepKeepsCounter(r.states[k - 1], op.value, instanceId);
      }
    }
  }

  /** The counter never hands out a number twice, whatever else moves it in between. */
  lemma {:induction false} AllocationsDiffer(r: Run, a: nat, b: nat)
    requires IsRun(r) && a < b < |r.calls| && r.calls[a].Allocate? && r.calls[a] == r.calls[b]
    ensures NumberFrom(r, a) < NumberFrom(r, b)
  {
    var instanceId := r.calls[a].instanceId;
    var op := StepOf(r, a);
    assert StepOk(r, a) && op == Some(Increment(instanceId));
    StepKeepsCounter(r.states[a], op.value, instanceId);
    CounterGrows(r, a + 1, b, instanceId);
  }

  /** Two finalizes of one instance store the same number exactly when both allocations
      reached the end of the 32-bit range, where the stored number saturates. */
  lemma {:induction false} NumbersShared(r: Run, i: nat, j: nat)
    requires IsRun(r) && i < j < |r.calls| && r.calls[i].Freeze? && r.calls[j].Freeze?
    requires AllocationOf(r, i) == AllocationOf(r, j)
    ensures FreezeNumber(r, i) == FreezeNumber(r, j) <==>
              AllocatedFor(r, i) >= U32_MAX && AllocatedFor(r, j) >= U32_MAX
  {
    assert StepOk(r, i) && StepOk(r, j);
    var a, b := r.calls[i].allocAt, r.calls[j].allocAt;
    assert a != b;
    if a < b {
      AllocationsDiffer(r, a, b);
    } else {
      AllocationsDiffer(r, b, a);
    }
  }

  /** The allocation a finalize uses. */
  function AllocationOf(r: Run, i: nat): Call
    requires IsRun(r) && i < |r.calls| && r.calls[i].Freeze?
  {
    assert StepOk(r, i);
    r.calls[r.calls[i].allocAt]
  }

  /** No two finalized invoices of an instance share a number, in any state of any run,
      unless that number is the saturated one. */
  lemma {:induction false} UniqueNumbers(r: Run, k: nat, id: Id, other: Id)
    requires IsRun(r) && k < |r.states| && id != other
    requires IsFinalized(r.states[k], id) && IsFinalized(r.states[k], other)
    requires r.states[k].invoices[id].instanceId == r.states[k].invoices[other].instanceId
    requires r.states[k].invoices[id].number == r.states[k].invoices[other].number
    ensures r.states[k].invoices[id].number == Some(U32_MAX)
  {
    var i := NumberedBy(r, k, id);
    var j := NumberedBy(r, k, other);
    if i < j {
      NumbersShared(r, i, j);
    } else {
      NumbersShared(r, j, i);
    }
  }

  lemma {:induction false} NumberedBy(r: Run, k: nat, id: Id) returns (i: nat)
    requires IsRun(r) && k < |r.states| && IsFinalized(r.states[k], id)
    ensures i < k && r.calls[i].Freeze? && r.calls[i].id == id
    ensures r.states[k].invoices[id].number == Some(FreezeNumber(r, i))
    ensures AllocationOf(r, i) == Allocate(r.states[k].invoices[id].instanceId)
  {
    i := FinalizedBy(r, k, id);
    FreezeWrote(r, i);
    assert StepOk(r, i);
    LinksHold(r, i);
    VersionOrder(r, r.calls[i].readAt, i, id);
  }
}
