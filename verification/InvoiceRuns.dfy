/** Whole runs of the invoicing mutations (api/src/graphql/mutations.rs) over the tables:
    any number of clients, each reading at moments of its own and writing later.

    A run is a sequence of table states. Between two states one database call executes
    atomically. Its arguments were prepared by a resolver from rows it read in earlier
    states of the same run, so every interleaving of reads and writes is a run. */
module InvoiceRuns {
  import opened Prelude
  import opened Money
  import opened InvoiceRows
  import opened Snapshots
  import opened InvoiceTables

  /** GraphQL's `Int`. */
  type I32 = n: int | -0x8000_0000 <= n <= 0x7fff_ffff

  /** One mutation reaching its write. `readAt` fields name the states its reads saw. */
  datatype Call =
    | NewItem(id: Id, instanceId: Id, projectId: Id, content: Content, userId: Id, now: nat)
    | EditItem(readAt: nat, invoiceReadAt: nat, id: Id, content: Content, now: nat)
    | DropItem(readAt: nat, id: Id)
    | NewInvoice(id: Id, instanceId: Id, projectId: Id, itemIds: seq<Id>, userId: Id, now: nat)
    | Attach(readAt: nat, id: Id, itemIds: seq<Id>, now: nat)
    | Detach(readAt: nat, id: Id, itemIds: seq<Id>, now: nat)
    | Discard(readAt: nat, id: Id, order: seq<Id>)
    | Allocate(instanceId: Id)
    | Freeze(readAt: nat, id: Id, order: seq<Id>, itemReadAt: seq<nat>, allocAt: nat,
             gstRegistered: bool, issueDate: string, userId: Id, now: nat)
    | Pay(readAt: nat, id: Id, paidDate: Option<string>, now: nat)
    | CachePdf(readAt: nat, id: Id, key: string)
    | SetNextNumber(instanceId: Id, next: I32)

  datatype Run = Run(states: seq<Tables>, calls: seq<Call>)

  const U32_MAX: nat := 0xFFFF_FFFF

  /** `u32::try_from(n).unwrap_or(u32::MAX)` */
  function ToU32(n: nat): nat { if n <= U32_MAX then n else U32_MAX }

  predicate Shaped(r: Run) { |r.states| == |r.calls| + 1 }

  /** One read for each id, all of them in the states from `first` to `last`. */
  predicate ReadBetween(order: seq<Id>, readAt: seq<nat>, first: nat, last: nat) {
    |readAt| == |order| && forall k :: 0 <= k < |readAt| ==> first <= readAt[k] <= last
  }

  /** The reads of a call that executes at step `i` happened by then. */
  predicate ReadsEarlier(c: Call, i: nat) {
    match c
    case EditItem(a, b, _, _, _) => a <= i && b <= i
    case DropItem(a, _) => a <= i
    case Attach(a, _, _, _) => a <= i
    case Detach(a, _, _, _) => a <= i
    case Discard(a, _, _) => a <= i
    case Pay(a, _, _, _) => a <= i
    case CachePdf(a, _, _) => a <= i
    case Freeze(a, _, order, itemReadAt, allocAt, _, _, _, _) =>
      a <= i && ReadBetween(order, itemReadAt, a, i) && allocAt < i
    case _ => true
  }

  /** A created id was never used before in the run. */
  predicate FreshId(r: Run, i: nat)
    requires Shaped(r) && i < |r.calls|
  {
    r.calls[i].NewInvoice? ==> forall m :: 0 <= m <= i ==> r.calls[i].id !in r.states[m].invoices
  }

  /** A finalize uses the number that one earlier `Allocate` of its instance returned. */
  predicate OwnNumber(r: Run, i: nat)
    requires Shaped(r) && i < |r.calls| && ReadsEarlier(r.calls[i], i)
  {
    var c := r.calls[i];
    c.Freeze? ==>
      && r.calls[c.allocAt].Allocate?
      && (c.id in r.states[c.readAt].invoices ==>
            r.calls[c.allocAt].instanceId == r.states[c.readAt].invoices[c.id].instanceId)
  }

  /** The number an `Allocate` call returned. */
  function NumberFrom(r: Run, at: nat): nat
    requires Shaped(r) && at < |r.calls| && r.calls[at].Allocate?
  {
    NextNumber(r.states[at], r.calls[at].instanceId)
  }

  // ------------------------------------------------ the resolvers, over what they read

  /** Ids to add: at least one, none twice, none already there, at most fifty in all. */
  predicate NewIdsOk(ids: seq<Id>, existing: set<Id>) {
    && ids != [] && Distinct(ids) && Elements(ids) !! existing
    && |existing| + |ids| <= MAX_INVOICE_ITEMS
  }

  /** `order` is the set `ids` in the order a read happened to return it. */
  predicate Lists(order: seq<Id>, ids: set<Id>) {
    Distinct(order) && Elements(order) == ids
  }

  function PrepareEdit(t: Tables, u: Tables, id: Id, content: Content, now: nat): Option<Op> {
    if id !in t.items || !content.Charge().InRange() then None
    else
      var on := t.items[id].invoiceId;
      if on.Some? && !IsDraft(u, on.value) then None else Some(UpdateItem(id, on, content, now))
  }

  function PrepareAttach(t: Tables, id: Id, ids: seq<Id>, now: nat): Option<Op> {
    if !IsDraft(t, id) then None
    else
      var inv := t.invoices[id];
      if NewIdsOk(ids, inv.itemIds) then Some(AddItems(id, inv.projectId, ids, inv.version, now)) else None
  }

  function PrepareDetach(t: Tables, id: Id, ids: seq<Id>, now: nat): Option<Op> {
    if !IsDraft(t, id) then None
    else
      var inv := t.invoices[id];
      if ids != [] && Distinct(ids) && Elements(ids) <= inv.itemIds
      then Some(RemoveItems(id, ids, inv.version, now)) else None
  }

  function PrepareDiscard(t: Tables, id: Id, order: seq<Id>): Option<Op> {
    if IsDraft(t, id) && Lists(order, t.invoices[id].itemIds)
    then Some(DeleteInvoice(id, order, t.invoices[id].version)) else None
  }

  predicate ItemsRead(states: seq<Tables>, id: Id, order: seq<Id>, readAt: seq<nat>)
    requires |states| > 0 && ReadBetween(order, readAt, 0, |states| - 1)
  {
    forall k :: 0 <= k < |order| ==> IsOn(states[readAt[k]], order[k], id)
  }

  /** The rows a finalize read, each at its own moment. */
  function RowsRead(states: seq<Tables>, id: Id, order: seq<Id>, readAt: seq<nat>): seq<BillableItem>
    requires |states| > 0 && ReadBetween(order, readAt, 0, |states| - 1)
    requires ItemsRead(states, id, order, readAt)
  {
    seq(|order|, k requires 0 <= k < |order| => states[readAt[k]].items[order[k]])
  }

  /** A finalize found its draft, with items, and every item of it as it read them. */
  predicate FreezeReadsAgree(states: seq<Tables>, c: Call)
    requires c.Freeze? && c.readAt < |states| && ReadBetween(c.order, c.itemReadAt, 0, |states| - 1)
  {
    && IsDraft(states[c.readAt], c.id) && c.order != []
    && Lists(c.order, states[c.readAt].invoices[c.id].itemIds)
    && ItemsRead(states, c.id, c.order, c.itemReadAt)
  }

  /** The snapshot a finalize builds from its reads and its number, before its write. */
  function Built(states: seq<Tables>, c: Call, number: nat): Snapshot
    requires c.Freeze? && c.readAt < |states| && ReadBetween(c.order, c.itemReadAt, 0, |states| - 1)
    requires FreezeReadsAgree(states, c)
  {
    BuildSnapshot(c.gstRegistered, RowsRead(states, c.id, c.order, c.itemReadAt), number, c.issueDate)
  }

  function PrepareFreeze(states: seq<Tables>, c: Call, number: nat): Option<Op>
    requires c.Freeze? && c.readAt < |states| && ReadBetween(c.order, c.itemReadAt, 0, |states| - 1)
  {
    if !FreezeReadsAgree(states, c) || !TotalIsSafe(Built(states, c, number).totalCents) then None
    else
      var s := Built(states, c, number);
      Some(Finalize(c.id, states[c.readAt].invoices[c.id].version, number, c.issueDate, s, s.totalCents, c.userId, c.now))
  }

  /** What the resolver of call `i` asks of the database, or `None` when it gives up first. */
  function Prepare(r: Run, i: nat): Option<Op>
    requires Shaped(r) && i < |r.calls| && ReadsEarlier(r.calls[i], i) && OwnNumber(r, i)
  {
    match r.calls[i]
    case NewItem(id, instanceId, projectId, content, userId, now) =>
      if content.Charge().InRange() then Some(CreateItem(id, instanceId, projectId, content, userId, now)) else None
    case EditItem(a, b, id, content, now) => PrepareEdit(r.states[a], r.states[b], id, content, now)
    case DropItem(a, id) =>
      if id !in r.states[a].items || r.states[a].items[id].invoiceId.Some? then None else Some(DeleteItem(id))
    case NewInvoice(id, instanceId, projectId, ids, userId, now) =>
      if NewIdsOk(ids, {}) then Some(CreateInvoice(id, instanceId, projectId, ids, userId, now)) else None
    case Attach(a, id, ids, now) => PrepareAttach(r.states[a], id, ids, now)
    case Detach(a, id, ids, now) => PrepareDetach(r.states[a], id, ids, now)
    case Discard(a, id, order) => PrepareDiscard(r.states[a], id, order)
    case Allocate(instanceId) => Some(Increment(instanceId))
    case Freeze(_, _, _, _, allocAt, _, _, _, _) =>
      PrepareFreeze(r.states[..i + 1], r.calls[i], ToU32(NumberFrom(r, allocAt)))
    case Pay(a, id, paidDate, now) => if IsFinalized(r.states[a], id) then Some(SetPaid(id, paidDate, now)) else None
    case CachePdf(a, id, key) => if IsFinalized(r.states[a], id) then Some(SetPdfKey(id, key)) else None
    case SetNextNumber(instanceId, next) => if next < 1 then None else Some(SetNext(instanceId, next - 1))
  }

  predicate StepOk(r: Run, i: nat)
    requires Shaped(r) && i < |r.calls|
  {
    && ReadsEarlier(r.calls[i], i) && FreshId(r, i) && OwnNumber(r, i)
    && r.states[i + 1] ==
       match Prepare(r, i)
       case None => r.states[i]
       case Some(op) => Exec(r.states[i], op).0
  }

  predicate OneUsePerNumber(r: Run) {
    forall i, j :: 0 <= i < j < |r.calls| && r.calls[i].Freeze? && r.calls[j].Freeze?
                   ==> r.calls[i].allocAt != r.calls[j].allocAt
  }

  /** A run from empty tables. */
  predicate IsRun(r: Run) {
    && Shaped(r)
    && r.states[0] == Tables(map[], map[], map[])
    && (forall i :: 0 <= i < |r.calls| ==> StepOk(r, i))
    && OneUsePerNumber(r)
  }

  /** The call of step `i` as the database saw it, if the resolver got that far. */
  function OpOf(r: Run, i: nat): Option<Op>
    requires IsRun(r) && i < |r.calls|
  {
    assert StepOk(r, i);
    Prepare(r, i)
  }

  /** Step `i` wrote. */
  predicate Wrote(r: Run, i: nat)
    requires IsRun(r) && i < |r.calls|
  {
    OpOf(r, i).Some? && Commits(r.states[i], OpOf(r, i).value)
  }

  /** What the resolvers' reads and checks guarantee about a call when it executes. */
  ghost predicate WellPrepared(r: Run, i: nat, op: Op)
    requires i < |r.states|
  {
    match op
    case CreateItem(_, _, _, content, _, _) => content.Charge().InRange()
    case UpdateItem(_, _, content, _) => content.Charge().InRange()
    case CreateInvoice(id, _, _, ids, _, _) =>
      NewIdsOk(ids, {}) && forall m :: 0 <= m <= i ==> id !in r.states[m].invoices
    case AddItems(id, projectId, ids, expected, _) =>
      exists a :: 0 <= a <= i && IsDraftAt(r.states[a], id, expected)
                  && projectId == r.states[a].invoices[id].projectId && NewIdsOk(ids, r.states[a].invoices[id].itemIds)
    case DeleteInvoice(id, ids, expected) =>
      exists a :: 0 <= a <= i && IsDraftAt(r.states[a], id, expected) && Lists(ids, r.states[a].invoices[id].itemIds)
    case Finalize(_, _, number, _, _, _, _, _) =>
      && i < |r.calls| && r.calls[i].Freeze? && ReadsEarlier(r.calls[i], i)
      && Some(op) == PrepareFreeze(r.states[..i + 1], r.calls[i], number)
    case _ => true
  }

  /** A step is one committed, well-prepared call, or nothing. */
  lemma {:induction false} StepOf(r: Run, i: nat) returns (op: Option<Op>)
    requires IsRun(r) && i < |r.calls|
    ensures op == if Wrote(r, i) then OpOf(r, i) else None
    ensures op.None? ==> r.states[i + 1] == r.states[i]
    ensures op.Some? ==>
              && Commits(r.states[i], op.value)
              && r.states[i + 1] == Applied(r.states[i], op.value)
              && WellPrepared(r, i, op.value)
  {
    assert StepOk(r, i);
    op := if Wrote(r, i) then OpOf(r, i) else None;
  }

  // ---------------------------------------------------------------- the link invariant

  /** The item's invoice exists, lists it and is of its project. */
  predicate PointsBack(t: Tables, x: Id)
    requires x in t.items
  {
    t.items[x].invoiceId.Some? ==>
      var id := t.items[x].invoiceId.value;
      id in t.invoices && x in t.invoices[id].itemIds && t.invoices[id].projectId == t.items[x].projectId
  }

  /** Every listed item exists and names the invoice. */
  predicate Owns(t: Tables, id: Id)
    requires id in t.invoices
  {
    forall x :: x in t.invoices[id].itemIds ==> IsOn(t, x, id)
  }

  /** An item names an invoice exactly when that invoice exists and lists the item, and
      the two then belong to one project. */
  predicate TwoWayLinks(t: Tables) {
    && (forall x :: x in t.items ==> PointsBack(t, x))
    && (forall id :: id in t.invoices ==> Owns(t, id))
  }

  /** A deletion that lists exactly the invoice's items. */
  predicate DeletesWhole(t: Tables, op: Op) {
    op.DeleteInvoice? ==> IsDraft(t, op.id) && Elements(op.itemIds) == t.invoices[op.id].itemIds
  }

  /** Attaching under the project of the invoice the write is conditioned on. */
  predicate AddsInProject(t: Tables, op: Op) {
    op.AddItems? && IsDraft(t, op.id) ==> op.projectId == t.invoices[op.id].projectId
  }

  lemma {:induction false} StepKeepsLinks(t: Tables, op: Op)
    requires TwoWayLinks(t) && Commits(t, op) && DeletesWhole(t, op) && AddsInProject(t, op)
    ensures TwoWayLinks(Applied(t, op))
  {
    if op.CreateItem? || op.UpdateItem? || op.DeleteItem? {
      ItemStepKeepsLinks(t, op);
    } else if op.CreateInvoice? || op.AddItems? {
      AttachStepKeepsLinks(t, op);
    } else if op.RemoveItems? || op.DeleteInvoice? {
      DetachStepKeepsLinks(t, op);
    } else {
      RowStepKeepsLinks(t, op);
    }
  }

  lemma {:induction false} ItemStepKeepsLinks(t: Tables, op: Op)
    requires TwoWayLinks(t) && Commits(t, op) && (op.CreateItem? || op.UpdateItem? || op.DeleteItem?)
    ensures TwoWayLinks(Applied(t, op))
  {
    var t' := Applied(t, op);
    forall x | x in t'.items
      ensures PointsBack(t', x)
    {
      assert x in t.items ==> PointsBack(t, x);
    }
    forall id | id in t'.invoices
      ensures Owns(t', id)
    {
      assert Owns(t, id);
    }
  }

  lemma {:induction false} AttachStepKeepsLinks(t: Tables, op: Op)
    requires TwoWayLinks(t) && Commits(t, op) && AddsInProject(t, op) && (op.CreateInvoice? || op.AddItems?)
    ensures TwoWayLinks(Applied(t, op))
  {
    var t' := Applied(t, op);
    forall x | x in t'.items
      ensures PointsBack(t', x)
    {
      assert PointsBack(t, x);
    }
    forall id | id in t'.invoices
      ensures Owns(t', id)
    {
      assert id in t.invoices ==> Owns(t, id);
      forall x | x in t'.invoices[id].itemIds
        ensures IsOn(t', x, id)
      {
        assert x in op.itemIds ==> CanAttach(t, x, op.projectId);
      }
    }
  }

  lemma {:induction false} DetachStepKeepsLinks(t: Tables, op: Op)
    requires TwoWayLinks(t) && Commits(t, op) && DeletesWhole(t, op) && (op.RemoveItems? || op.DeleteInvoice?)
    ensures TwoWayLinks(Applied(t, op))
  {
    var t' := Applied(t, op);
    forall x | x in t'.items
      ensures PointsBack(t', x)
    {
      assert PointsBack(t, x);
    }
    forall id | id in t'.invoices
      ensures Owns(t', id)
    {
      assert Owns(t, id);
      forall x | x in t'.invoices[id].itemIds
        ensures IsOn(t', x, id)
      {
        assert IsOn(t, x, id);
        assert x in op.itemIds ==> IsOn(t, x, op.id);
      }
    }
  }

  lemma {:induction false} RowStepKeepsLinks(t: Tables, op: Op)
    requires TwoWayLinks(t) && Commits(t, op)
    requires op.Finalize? || op.SetPaid? || op.SetPdfKey? || op.Increment? || op.SetNext?
    ensures TwoWayLinks(Applied(t, op))
  {
    var t' := Applied(t, op);
    forall x | x in t'.items
      ensures PointsBack(t', x)
    {
      assert PointsBack(t, x);
    }
    forall id | id in t'.invoices
      ensures Owns(t', id)
    {
      assert Owns(t, id);
    }
  }

  // ---------------------------------------------------------------- versions

  /** What finalization freezes: everything but payment, the cached PDF and the clock. */
  function Frozen(inv: Invoice): Invoice {
    inv.(paidDate := None, pdfKey := None, updatedAt := 0)
  }

  /** Invoice `id` is the same in both states, down to the rows of its items. */
  predicate SameContents(t: Tables, u: Tables, id: Id) {
    && id in t.invoices && id in u.invoices
    && Frozen(t.invoices[id]) == Frozen(u.invoices[id])
    && forall x :: x in t.invoices[id].itemIds ==> x in t.items && x in u.items && t.items[x] == u.items[x]
  }

  /** One step leaves an invoice that survives it the same, or bumps the version of a draft. */
  lemma {:induction false} StepVersion(t: Tables, op: Op, id: Id)
    requires TwoWayLinks(t) && Commits(t, op)
    requires id in t.invoices && id in Applied(t, op).invoices
    ensures var inv, inv' := t.invoices[id], Applied(t, op).invoices[id];
            && inv'.instanceId == inv.instanceId && inv'.projectId == inv.projectId
            && (SameContents(t, Applied(t, op), id) || (inv.status == Draft && inv'.version == inv.version + 1))
  {
    var t' := Applied(t, op);
    assert Owns(t, id);
    var inv, inv' := t.invoices[id], t'.invoices[id];
    if !(inv'.version == inv.version + 1 && inv.status == Draft) {
      forall x | x in inv.itemIds
        ensures x in t.items && x in t'.items && t.items[x] == t'.items[x]
      {
        assert IsOn(t, x, id);
        if op.CreateInvoice? || op.AddItems? {
          assert x in op.itemIds ==> CanAttach(t, x, op.projectId);
        } else if op.RemoveItems? || op.DeleteInvoice? {
          assert x in op.itemIds ==> IsOn(t, x, op.id);
        }
      }
    }
  }

  predicate LinksUpTo(r: Run, k: nat)
    requires k < |r.states|
  {
    forall m :: 0 <= m <= k ==> TwoWayLinks(r.states[m])
  }

  lemma {:induction false} OnlyCreateAdds(t: Tables, op: Op, id: Id)
    requires Commits(t, op) && id !in t.invoices && id in Applied(t, op).invoices
    ensures op.CreateInvoice? && op.id == id
  {}

  /** An invoice that is gone never comes back: its id is not used again. */
  lemma {:induction false} NeverBack(r: Run, j: nat, m: nat, k: nat, id: Id)
    requires IsRun(r) && j <= m <= k < |r.states|
    requires id in r.states[j].invoices && id !in r.states[m].invoices
    ensures id !in r.states[k].invoices
  {
    if m < k {
      NeverBack(r, j, m, k - 1, id);
      var op := StepOf(r, k - 1);
      if op.Some? && id in r.states[k].invoices {
        OnlyCreateAdds(r.states[k - 1], op.value, id);
      }
    }
  }

  /** Between two states of a run a surviving invoice's version only grows; while it stays,
      or once the invoice is finalized, nothing about the invoice or its items changes. */
  lemma {:induction false} VersionOrder(r: Run, j: nat, k: nat, id: Id)
    requires IsRun(r) && j <= k < |r.states| && LinksUpTo(r, k)
    requires id in r.states[j].invoices && id in r.states[k].invoices
    ensures var a, b := r.states[j].invoices[id], r.states[k].invoices[id];
            && a.version <= b.version
            && a.instanceId == b.instanceId && a.projectId == b.projectId
            && (a.version == b.version || a.status == Finalized ==> SameContents(r.states[j], r.states[k], id))
  {
    assert TwoWayLinks(r.states[k]) && Owns(r.states[k], id);
    if j < k {
      if id !in r.states[k - 1].invoices {
        NeverBack(r, j, k - 1, k, id);
      }
      VersionOrder(r, j, k - 1, id);
      var op := StepOf(r, k - 1);
      if op.Some? {
        StepVersion(r.states[k - 1], op.value, id);
      }
    }
  }

  /** In every state of every run items and invoices point at each other. */
  lemma {:induction false} LinksHold(r: Run, k: nat)
    requires IsRun(r) && k < |r.states|
    ensures LinksUpTo(r, k)
  {
    if k > 0 {
      LinksHold(r, k - 1);
      LinkStep(r, k - 1);
    } else {
      assert r.states[0] == Tables(map[], map[], map[]);
    }
  }

  lemma {:induction false} LinkStep(r: Run, i: nat)
    requires IsRun(r) && i < |r.calls| && LinksUpTo(r, i)
    ensures TwoWayLinks(r.states[i + 1])
  {
    assert TwoWayLinks(r.states[i]);
    var op := StepOf(r, i);
    if op.Some? {
      WholeAndInProject(r, i, op.value);
      StepKeepsLinks(r.states[i], op.value);
    }
  }

  /** So, item by item and invoice by invoice: an item names an invoice exactly if the invoice is
      there and lists it, and then both are of one project. */
  lemma {:induction false} NamesIffListed(r: Run, k: nat, x: Id, id: Id)
    requires IsRun(r) && k < |r.states|
    ensures var t := r.states[k];
            && (x in t.items && t.items[x].invoiceId == Some(id) <==> id in t.invoices && x in t.invoices[id].itemIds)
            && (x in t.items && t.items[x].invoiceId == Some(id) ==> t.items[x].projectId == t.invoices[id].projectId)
  {
    LinksHold(r, k);
    assert TwoWayLinks(r.states[k]);
    assert x in r.states[k].items ==> PointsBack(r.states[k], x);
    if id in r.states[k].invoices && x in r.states[k].invoices[id].itemIds {
      assert Owns(r.states[k], id) && IsOn(r.states[k], x, id);
    }
  }

  /** A delete or add conditioned on the version it read still sees the items it read. */
  lemma {:induction false} WholeAndInProject(r: Run, i: nat, op: Op)
    requires IsRun(r) && i < |r.calls| && LinksUpTo(r, i)
    requires Commits(r.states[i], op) && WellPrepared(r, i, op)
    ensures DeletesWhole(r.states[i], op) && AddsInProject(r.states[i], op)
  {
    if op.DeleteInvoice? {
      var a :| 0 <= a <= i && IsDraftAt(r.states[a], op.id, op.expected)
               && Lists(op.itemIds, r.states[a].invoices[op.id].itemIds);
      VersionOrder(r, a, i, op.id);
    } else if op.AddItems? {
      var a :| 0 <= a <= i && IsDraftAt(r.states[a], op.id, op.expected)
               && op.projectId == r.states[a].invoices[op.id].projectId
               && NewIdsOk(op.itemIds, r.states[a].invoices[op.id].itemIds);
      VersionOrder(r, a, i, op.id);
    }
  }

  /** The version of an invoice pins its item set and its item rows: in any two states of a
      run that hold it, the version never went down, and with the same version, or once the
      first had it finalized, nothing about the invoice or its items differs. */
  lemma {:induction false} VersionPinsContents(r: Run, j: nat, k: nat, id: Id)
    requires IsRun(r) && j <= k < |r.states| && id in r.states[j].invoices && id in r.states[k].invoices
    ensures var a, b := r.states[j].invoices[id], r.states[k].invoices[id];
            && a.version <= b.version
            && a.instanceId == b.instanceId && a.projectId == b.projectId
            && (a.version == b.version || a.status == Finalized ==> SameContents(r.states[j], r.states[k], id))
  {
    LinksHold(r, k);
    VersionOrder(r, j, k, id);
  }

  /** A delete or add that commits acts on what its resolver read: the delete lists exactly the
      items that are on the invoice now, the add is under the invoice's own project. */
  lemma {:induction false} CommitsAsRead(r: Run, i: nat, op: Op)
    requires IsRun(r) && i < |r.calls| && Commits(r.states[i], op) && WellPrepared(r, i, op)
    ensures DeletesWhole(r.states[i], op) && AddsInProject(r.states[i], op)
  {
    LinksHold(r, i);
    WholeAndInProject(r, i, op);
  }

  /** The item sets of different invoices share nothing. */
  lemma {:induction false} ItemSetsDisjoint(r: Run, k: nat, id: Id, other: Id)
    requires IsRun(r) && k < |r.states| && id != other
    requires id in r.states[k].invoices && other in r.states[k].invoices
    ensures r.states[k].invoices[id].itemIds !! r.states[k].invoices[other].itemIds
  {
    LinksHold(r, k);
    assert Owns(r.states[k], id) && Owns(r.states[k], other);
    forall x | x in r.states[k].invoices[id].itemIds
      ensures x !in r.states[k].invoices[other].itemIds
    {
      assert IsOn(r.states[k], x, id);
    }
  }

  // ---------------------------------------------------------------- permanence

  lemma {:induction false} FinalizedSurvives(t: Tables, op: Op, id: Id)
    requires Commits(t, op) && IsFinalized(t, id)
    ensures id in Applied(t, op).invoices
  {}

  /** From the state in which it is finalized, an invoice stays, and every later state of
      the run has the same number, date, snapshot, total and item set for it and the very
      same item rows; only payment, the cached PDF and the update time may differ. */
  lemma {:induction false} FinalizedForever(r: Run, j: nat, k: nat, id: Id)
    requires IsRun(r) && j <= k < |r.states| && IsFinalized(r.states[j], id)
    ensures SameContents(r.states[j], r.states[k], id)
    ensures var inv, inv' := r.states[j].invoices[id], r.states[k].invoices[id];
            inv' == inv.(paidDate := inv'.paidDate, pdfKey := inv'.pdfKey, updatedAt := inv'.updatedAt)
  {
    LinksHold(r, k);
    FinalizedStays(r, j, k, id);
    VersionOrder(r, j, k, id);
    FrozenSame(r.states[j].invoices[id], r.states[k].invoices[id]);
  }

  lemma {:induction false} FrozenSame(inv: Invoice, inv': Invoice)
    requires Frozen(inv) == Frozen(inv')
    ensures inv' == inv.(paidDate := inv'.paidDate, pdfKey := inv'.pdfKey, updatedAt := inv'.updatedAt)
  {
    assert Frozen(inv).instanceId == inv.instanceId && Frozen(inv').instanceId == inv'.instanceId;
  }

  lemma {:induction false} FinalizedStays(r: Run, j: nat, k: nat, id: Id)
    requires IsRun(r) && j <= k < |r.states| && LinksUpTo(r, k) && IsFinalized(r.states[j], id)
    ensures id in r.states[k].invoices
  {
    if j < k {
      FinalizedStays(r, j, k - 1, id);
      VersionOrder(r, j, k - 1, id);
      var op := StepOf(r, k - 1);
      if op.Some? {
        FinalizedSurvives(r.states[k - 1], op.value, id);
      }
    }
  }

  // ---------------------------------------------------------------- optimistic writes

  /** The invoice and version a call is conditioned on. */
  function Guard(op: Op): Option<(Id, nat)> {
    match op
    case AddItems(id, _, _, expected, _) => Some((id, expected))
    case RemoveItems(id, _, expected, _) => Some((id, expected))
    case DeleteInvoice(id, _, expected) => Some((id, expected))
    case Finalize(id, expected, _, _, _, _, _, _) => Some((id, expected))
    case _ => None
  }

  lemma {:induction false} GuardConsumed(t: Tables, op: Op)
    requires Commits(t, op) && Guard(op).Some?
    ensures var (id, expected) := Guard(op).value;
            && IsDraftAt(t, id, expected)
            && (id in Applied(t, op).invoices ==> Applied(t, op).invoices[id].version == expected + 1)
  {}

  /** Of all the adds, removes, deletes and finalizes prepared against one version of an
      invoice, at most one ever writes. */
  lemma {:induction false} OneWritePerVersion(r: Run, i: nat, j: nat)
    requires IsRun(r) && i <= j < |r.calls| && Wrote(r, i) && Wrote(r, j)
    requires Guard(OpOf(r, i).value).Some? && Guard(OpOf(r, i).value) == Guard(OpOf(r, j).value)
    ensures i == j
  {
    var a := StepOf(r, i);
    var b := StepOf(r, j);
    var (id, expected) := Guard(a.value).value;
    GuardConsumed(r.states[i], a.value);
    GuardConsumed(r.states[j], b.value);
    if i < j {
      VersionSpent(r, i, j, id, expected);
    }
  }

  /** A version that a write has moved on from is never a draft's version again. */
  lemma {:induction false} VersionSpent(r: Run, i: nat, j: nat, id: Id, expected: nat)
    requires IsRun(r) && i < j < |r.calls| && IsDraftAt(r.states[i], id, expected)
    requires id in r.states[i + 1].invoices ==> r.states[i + 1].invoices[id].version == expected + 1
    ensures !IsDraftAt(r.states[j], id, expected)
  {
    LinksHold(r, j);
    if id !in r.states[i + 1].invoices {
      NeverBack(r, i, i + 1, j, id);
    } else if id in r.states[j].invoices {
      VersionOrder(r, i + 1, j, id);
    }
  }
}
