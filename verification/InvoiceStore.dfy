/** The invoice, billable item and counter tables as the handler changes them in place
    (api/src/dynamodb.rs). A multi-row call builds a list of conditional writes in a loop
    and hands it to one transaction; each method is proved to do what `Exec` says. */
module InvoiceStore {
  import opened Prelude
  import opened InvoiceRows
  import opened InvoiceTables

  /** One element of a `TransactWriteItems` call: an update with its own condition. */
  datatype Write =
    | PutInvoice(id: Id, row: Invoice)
    | EditDraft(id: Id, guard: Option<nat>, add: set<Id>, drop: set<Id>, now: nat)
    | DropDraft(id: Id, expected: nat)
    | AttachItem(id: Id, invoiceId: Id, projectId: Id)
    | DetachItem(id: Id, invoiceId: Id)
    | EditItem(id: Id, invoiceId: Id, content: Content, now: nat)
  {
    predicate OnInvoiceTable() { PutInvoice? || EditDraft? || DropDraft? }
  }

  predicate Holds(t: Tables, w: Write) {
    match w
    case PutInvoice(id, _) => id !in t.invoices
    case EditDraft(id, guard, _, _, _) =>
      IsDraft(t, id) && (guard.Some? ==> t.invoices[id].version == guard.value)
    case DropDraft(id, expected) => IsDraftAt(t, id, expected)
    case AttachItem(id, _, projectId) => CanAttach(t, id, projectId)
    case DetachItem(id, invoiceId) => IsOn(t, id, invoiceId)
    case EditItem(id, invoiceId, _, _) => IsOn(t, id, invoiceId)
  }

  /** The effect of one write; a write whose row is missing has none. */
  function Effect(t: Tables, w: Write): Tables {
    match w
    case PutInvoice(id, row) => t.(invoices := t.invoices[id := row])
    case EditDraft(id, _, add, drop, now) =>
      if id !in t.invoices then t
      else
        var inv := t.invoices[id];
        t.(invoices := t.invoices[id := Bumped(inv, (inv.itemIds + add) - drop, now)])
    case DropDraft(id, _) => t.(invoices := t.invoices - {id})
    case AttachItem(id, invoiceId, _) =>
      if id !in t.items then t else t.(items := t.items[id := t.items[id].(invoiceId := Some(invoiceId))])
    case DetachItem(id, _) =>
      if id !in t.items then t else t.(items := t.items[id := t.items[id].(invoiceId := None)])
    case EditItem(id, _, content, now) =>
      if id !in t.items then t else t.(items := t.items[id := t.items[id].(content := content, updatedAt := now)])
  }

  function Effects(t: Tables, ws: seq<Write>): Tables {
    if ws == [] then t else Effect(Effects(t, ws[..|ws| - 1]), ws[|ws| - 1])
  }

  /** The service rejects a transaction that is too long or names a row twice. */
  predicate Accepted(ws: seq<Write>) {
    && 0 < |ws| <= MAX_TRANSACTION
    && forall i, j :: 0 <= i < j < |ws| ==> !(ws[i].OnInvoiceTable() == ws[j].OnInvoiceTable() && ws[i].id == ws[j].id)
  }

  predicate AllHold(t: Tables, ws: seq<Write>) {
    forall i :: 0 <= i < |ws| ==> Holds(t, ws[i])
  }

  function Attaches(ids: seq<Id>, invoiceId: Id, projectId: Id): seq<Write> {
    seq(|ids|, i requires 0 <= i < |ids| => AttachItem(ids[i], invoiceId, projectId))
  }

  function Detaches(ids: seq<Id>, invoiceId: Id): seq<Write> {
    seq(|ids|, i requires 0 <= i < |ids| => DetachItem(ids[i], invoiceId))
  }

  // ------------------------------------------------ what the lists amount to

  lemma {:induction false} EffectsSnoc(t: Tables, ws: seq<Write>, w: Write)
    ensures Effects(t, ws + [w]) == Effect(Effects(t, ws), w)
  {
    assert (ws + [w])[..|ws|] == ws;
  }

  lemma {:induction false} LinkedSnoc(items: map<Id, BillableItem>, ids: set<Id>, id: Id, target: Option<Id>)
    ensures var linked := Linked(items, ids, target);
            Linked(items, ids + {id}, target)
            == if id in linked then linked[id := linked[id].(invoiceId := target)] else linked
  {}

  lemma {:induction false} EffectsOfAttaches(t: Tables, w: Write, ids: seq<Id>, invoiceId: Id, projectId: Id)
    requires w.OnInvoiceTable()
    ensures var t' := Effect(t, w);
            Effects(t, [w] + Attaches(ids, invoiceId, projectId)) == t'.(items := Linked(t'.items, Elements(ids), Some(invoiceId)))
  {
    var ws := [w] + Attaches(ids, invoiceId, projectId);
    if ids == [] {
      assert ws[..0] == [] && Effects(t, ws[..0]) == t;
      assert Linked(Effect(t, w).items, Elements(ids), Some(invoiceId)) == Effect(t, w).items;
    } else {
      var front, last := ids[..|ids| - 1], ids[|ids| - 1];
      EffectsOfAttaches(t, w, front, invoiceId, projectId);
      assert ws == ([w] + Attaches(front, invoiceId, projectId)) + [AttachItem(last, invoiceId, projectId)];
      EffectsSnoc(t, [w] + Attaches(front, invoiceId, projectId), AttachItem(last, invoiceId, projectId));
      assert Elements(ids) == Elements(front) + {last};
      LinkedSnoc(Effect(t, w).items, Elements(front), last, Some(invoiceId));
    }
  }

  lemma {:induction false} EffectsOfDetaches(t: Tables, w: Write, ids: seq<Id>, invoiceId: Id)
    requires w.OnInvoiceTable()
    ensures var t' := Effect(t, w);
            Effects(t, [w] + Detaches(ids, invoiceId)) == t'.(items := Linked(t'.items, Elements(ids), None))
  {
    var ws := [w] + Detaches(ids, invoiceId);
    if ids == [] {
      assert ws[..0] == [] && Effects(t, ws[..0]) == t;
      assert Linked(Effect(t, w).items, Elements(ids), None) == Effect(t, w).items;
    } else {
      var front, last := ids[..|ids| - 1], ids[|ids| - 1];
      EffectsOfDetaches(t, w, front, invoiceId);
      assert ws == ([w] + Detaches(front, invoiceId)) + [DetachItem(last, invoiceId)];
      EffectsSnoc(t, [w] + Detaches(front, invoiceId), DetachItem(last, invoiceId));
      assert Elements(ids) == Elements(front) + {last};
      LinkedSnoc(Effect(t, w).items, Elements(front), last, None);
    }
  }

  /** The service accepts an invoice write followed by item writes exactly when the item
      ids are distinct and few enough. */
  lemma {:induction false} AcceptedList(w: Write, rest: seq<Write>, ids: seq<Id>)
    requires w.OnInvoiceTable() && |rest| == |ids|
    requires forall i :: 0 <= i < |ids| ==> !rest[i].OnInvoiceTable() && rest[i].id == ids[i]
    ensures Accepted([w] + rest) <==> FitsTransaction(ids)
  {
    var ws := [w] + rest;
    if Accepted(ws) {
      forall i, j | 0 <= i < j < |ids|
        ensures ids[i] != ids[j]
      {
        assert ws[i + 1] == rest[i] && ws[j + 1] == rest[j];
      }
    }
  }

  lemma {:induction false} AllHoldList(t: Tables, w: Write, rest: seq<Write>)
    ensures AllHold(t, [w] + rest) <==> Holds(t, w) && AllHold(t, rest)
  {
    var ws := [w] + rest;
    assert ws[0] == w && forall i :: 0 <= i < |rest| ==> ws[i + 1] == rest[i];
    if AllHold(t, ws) {
      forall i | 0 <= i < |rest|
        ensures Holds(t, rest[i])
      {
        assert Holds(t, ws[i + 1]);
      }
    }
  }

  /** The item exists, is on no invoice and is of the project. */
  predicate Unbilled(items: map<Id, BillableItem>, x: Id, projectId: Id) {
    x in items && items[x].invoiceId == None && items[x].projectId == projectId
  }

  /** The item exists and is on the invoice. */
  predicate Billed(items: map<Id, BillableItem>, x: Id, invoiceId: Id) {
    x in items && items[x].invoiceId == Some(invoiceId)
  }

  /** The listed items name `target` and are otherwise as before; no other item is touched. */
  predicate Repointed(before: map<Id, BillableItem>, after: map<Id, BillableItem>, ids: seq<Id>, target: Option<Id>) {
    && after.Keys == before.Keys
    && forall x :: x in before ==> after[x] == if x in ids then before[x].(invoiceId := target) else before[x]
  }

  class Store {
    var invoices: map<Id, Invoice>
    var items: map<Id, BillableItem>
    var counters: map<Id, nat>

    function View(): Tables
      reads this
    {
      Tables(invoices, items, counters)
    }

    constructor ()
      ensures View() == Tables(map[], map[], map[])
    {
      invoices, items, counters := map[], map[], map[];
    }

    /** All conditions are judged on the state before the call; then all writes happen or
        none does. */
    method TransactWrite(ws: seq<Write>) returns (r: Reply)
      modifies this
      ensures !Accepted(ws) ==> r == Failed && View() == old(View())
      ensures Accepted(ws) && AllHold(old(View()), ws) ==> r == Committed && View() == Effects(old(View()), ws)
      ensures Accepted(ws) && !AllHold(old(View()), ws) ==> r == Refused && View() == old(View())
    {
      if !Accepted(ws) { return Failed; }
      var ok := true;
      for i := 0 to |ws|
        invariant View() == old(View())
        invariant ok <==> AllHold(View(), ws[..i])
      {
        assert ws[..i + 1] == ws[..i] + [ws[i]];
        if !Holds(View(), ws[i]) { ok := false; }
      }
      assert ws[..|ws|] == ws;
      if !ok { return Refused; }
      for i := 0 to |ws|
        invariant View() == Effects(old(View()), ws[..i])
      {
        assert ws[..i + 1][..i] == ws[..i];
        Perform(ws[i]);
      }
      r := Committed;
    }

    method Perform(w: Write)
      modifies this
      ensures View() == Effect(old(View()), w)
    {
      match w {
        case PutInvoice(id, row) => invoices := invoices[id := row];
        case EditDraft(id, _, add, drop, now) =>
          if id in invoices {
            invoices := invoices[id := Bumped(invoices[id], (invoices[id].itemIds + add) - drop, now)];
          }
        case DropDraft(id, _) => invoices := invoices - {id};
        case AttachItem(id, invoiceId, _) =>
          if id in items { items := items[id := items[id].(invoiceId := Some(invoiceId))]; }
        case DetachItem(id, _) =>
          if id in items { items := items[id := items[id].(invoiceId := None)]; }
        case EditItem(id, _, content, now) =>
          if id in items { items := items[id := items[id].(content := content, updatedAt := now)]; }
      }
    }

    method CreateBillableItem(id: Id, instanceId: Id, projectId: Id, content: Content, userId: Id, now: nat)
      returns (r: Reply)
      modifies this
      ensures (View(), r) == Exec(old(View()), CreateItem(id, instanceId, projectId, content, userId, now))
      ensures r == if id !in old(items) then Committed else Failed
      ensures r == Committed ==> View() == old(View()).(
                  items := old(items)[id := BillableItem(instanceId, projectId, content, None, userId, now, now)])
      ensures r == Failed ==> View() == old(View())
    {
      if id in items { return Failed; }
      items := items[id := BillableItem(instanceId, projectId, content, None, userId, now, now)];
      r := Committed;
    }

    method UpdateBillableItem(id: Id, invoiceId: Option<Id>, content: Content, now: nat) returns (r: Reply)
      modifies this
      ensures (View(), r) == Exec(old(View()), UpdateItem(id, invoiceId, content, now))
      ensures r == Committed <==>
                && id in old(items) && old(items)[id].invoiceId == invoiceId
                && (invoiceId.Some? ==>
                      invoiceId.value in old(invoices) && old(invoices)[invoiceId.value].status == Draft)
      ensures r == Committed ==>
                && items == old(items)[id := old(items)[id].(content := content, updatedAt := now)]
                && invoices == (if invoiceId.None? then old(invoices) else
                     var draft := old(invoices)[invoiceId.value];
                     old(invoices)[invoiceId.value := draft.(version := draft.version + 1, updatedAt := now)])
                && counters == old(counters)
      ensures r != Committed ==> r == Refused && View() == old(View())
    {
      match invoiceId {
        case None =>
          if id !in items || items[id].invoiceId.Some? { return Refused; }
          items := items[id := items[id].(content := content, updatedAt := now)];
          r := Committed;
        case Some(inv) =>
          var ws := [EditItem(id, inv, content, now), EditDraft(inv, None, {}, {}, now)];
          ghost var t := View();
          assert ws[..1] == [ws[0]] && ws[..0] == [];
          assert Effects(t, ws[..0]) == t && Effects(t, ws[..1]) == Effect(t, ws[0]);
          assert AllHold(t, ws) <==> Holds(t, ws[0]) && Holds(t, ws[1]);
          r := TransactWrite(ws);
          assert r == Committed ==> (t.invoices[inv].itemIds + {}) - {} == t.invoices[inv].itemIds;
      }
    }

    method DeleteBillableItem(id: Id) returns (r: Reply)
      modifies this
      ensures (View(), r) == Exec(old(View()), DeleteItem(id))
      ensures r == if id in old(items) && old(items)[id].invoiceId.None? then Committed else Refused
      ensures r == Committed ==> View() == old(View()).(items := old(items) - {id})
      ensures r == Refused ==> View() == old(View())
    {
      if id !in items || items[id].invoiceId.Some? { return Refused; }
      items := items - {id};
      r := Committed;
    }

    method CreateInvoice(id: Id, instanceId: Id, projectId: Id, itemIds: seq<Id>, userId: Id, now: nat)
      returns (r: Reply)
      modifies this
      ensures (View(), r) == Exec(old(View()), Op.CreateInvoice(id, instanceId, projectId, itemIds, userId, now))
      ensures r == Failed <==> !(Distinct(itemIds) && |itemIds| < 100)
      ensures r == Committed <==>
                && Distinct(itemIds) && |itemIds| < 100 && id !in old(invoices)
                && forall x :: x in itemIds ==> Unbilled(old(items), x, projectId)
      ensures r == Committed ==>
                && invoices == old(invoices)[id := Invoice(
                     instanceId, projectId, Draft, 1, Elements(itemIds), userId, now, now,
                     None, None, None, None, None, None, None, None)]
                && Repointed(old(items), items, itemIds, Some(id)) && counters == old(counters)
      ensures r != Committed ==> (r == Failed || r == Refused) && View() == old(View())
    {
      var put := PutInvoice(id, NewInvoice(instanceId, projectId, Elements(itemIds), userId, now));
      var ws := [put];
      for i := 0 to |itemIds|
        invariant ws == [put] + Attaches(itemIds[..i], id, projectId)
        invariant View() == old(View())
      {
        ws := ws + [AttachItem(itemIds[i], id, projectId)];
      }
      assert itemIds[..|itemIds|] == itemIds;
      AcceptedList(put, Attaches(itemIds, id, projectId), itemIds);
      AllHoldList(View(), put, Attaches(itemIds, id, projectId));
      AttachConditions(View(), itemIds, id, projectId);
      EffectsOfAttaches(View(), put, itemIds, id, projectId);
      r := TransactWrite(ws);
    }

    method AddInvoiceItems(id: Id, projectId: Id, itemIds: seq<Id>, expectedVersion: nat, now: nat) returns (r: Reply)
      modifies this
      ensures (View(), r) == Exec(old(View()), AddItems(id, projectId, itemIds, expectedVersion, now))
      ensures r == Failed <==> !(itemIds != [] && Distinct(itemIds) && |itemIds| < 100)
      ensures r == Committed <==>
                && itemIds != [] && Distinct(itemIds) && |itemIds| < 100
                && id in old(invoices) && old(invoices)[id].status == Draft && old(invoices)[id].version == expectedVersion
                && forall x :: x in itemIds ==> Unbilled(old(items), x, projectId)
      ensures r == Committed ==>
                var draft := old(invoices)[id];
                && invoices == old(invoices)[id := draft.(
                     version := draft.version + 1, itemIds := draft.itemIds + Elements(itemIds), updatedAt := now)]
                && Repointed(old(items), items, itemIds, Some(id)) && counters == old(counters)
      ensures r != Committed ==> (r == Failed || r == Refused) && View() == old(View())
    {
      if itemIds == [] { return Failed; } // an empty string set is not a value
      var edit := EditDraft(id, Some(expectedVersion), Elements(itemIds), {}, now);
      var ws := [edit];
      for i := 0 to |itemIds|
        invariant ws == [edit] + Attaches(itemIds[..i], id, projectId)
        invariant View() == old(View())
      {
        ws := ws + [AttachItem(itemIds[i], id, projectId)];
      }
      assert itemIds[..|itemIds|] == itemIds;
      AcceptedList(edit, Attaches(itemIds, id, projectId), itemIds);
      AllHoldList(View(), edit, Attaches(itemIds, id, projectId));
      AttachConditions(View(), itemIds, id, projectId);
      EffectsOfAttaches(View(), edit, itemIds, id, projectId);
      r := TransactWrite(ws);
      assert r == Committed ==>
          var ids := old(View()).invoices[id].itemIds + Elements(itemIds); ids - {} == ids;
    }

    /** An invoice write, then one update per item. */
    static method WithDetaches(head: Write, itemIds: seq<Id>, id: Id) returns (ws: seq<Write>)
      ensures ws == [head] + Detaches(itemIds, id)
    {
      ws := [head];
      for i := 0 to |itemIds|
        invariant ws == [head] + Detaches(itemIds[..i], id)
      {
        ws := ws + [DetachItem(itemIds[i], id)];
      }
      assert itemIds[..|itemIds|] == itemIds;
    }

    method RemoveInvoiceItems(id: Id, itemIds: seq<Id>, expectedVersion: nat, now: nat) returns (r: Reply)
      modifies this
      ensures (View(), r) == Exec(old(View()), RemoveItems(id, itemIds, expectedVersion, now))
      ensures r == Failed <==> !(itemIds != [] && Distinct(itemIds) && |itemIds| < 100)
      ensures r == Committed <==>
                && itemIds != [] && Distinct(itemIds) && |itemIds| < 100
                && id in old(invoices) && old(invoices)[id].status == Draft && old(invoices)[id].version == expectedVersion
                && forall x :: x in itemIds ==> Billed(old(items), x, id)
      ensures r == Committed ==>
                var draft := old(invoices)[id];
                && invoices == old(invoices)[id := draft.(
                     version := draft.version + 1, itemIds := draft.itemIds - Elements(itemIds), updatedAt := now)]
                && Repointed(old(items), items, itemIds, None) && counters == old(counters)
      ensures r != Committed ==> (r == Failed || r == Refused) && View() == old(View())
    {
      if itemIds == [] { return Failed; }
      var edit := EditDraft(id, Some(expectedVersion), {}, Elements(itemIds), now);
      var ws := WithDetaches(edit, itemIds, id);
      AcceptedList(edit, Detaches(itemIds, id), itemIds);
      AllHoldList(View(), edit, Detaches(itemIds, id));
      DetachConditions(View(), itemIds, id);
      EffectsOfDetaches(View(), edit, itemIds, id);
      r := TransactWrite(ws);
      assert r == Committed ==>
          var ids := old(View()).invoices[id].itemIds; ids + {} == ids;
    }

    method DeleteInvoice(id: Id, itemIds: seq<Id>, expectedVersion: nat) returns (r: Reply)
      modifies this
      ensures (View(), r) == Exec(old(View()), Op.DeleteInvoice(id, itemIds, expectedVersion))
      ensures r == Failed <==> !(Distinct(itemIds) && |itemIds| < 100)
      ensures r == Committed <==>
                && Distinct(itemIds) && |itemIds| < 100
                && id in old(invoices) && old(invoices)[id].status == Draft && old(invoices)[id].version == expectedVersion
                && forall x :: x in itemIds ==> Billed(old(items), x, id)
      ensures r == Committed ==>
                invoices == old(invoices) - {id} && Repointed(old(items), items, itemIds, None) && counters == old(counters)
      ensures r != Committed ==> (r == Failed || r == Refused) && View() == old(View())
    {
      var drop := DropDraft(id, expectedVersion);
      var ws := WithDetaches(drop, itemIds, id);
      AcceptedList(drop, Detaches(itemIds, id), itemIds);
      AllHoldList(View(), drop, Detaches(itemIds, id));
      DetachConditions(View(), itemIds, id);
      EffectsOfDetaches(View(), drop, itemIds, id);
      r := TransactWrite(ws);
    }

    method FinalizeInvoice(id: Id, expectedVersion: nat, number: nat, issueDate: string, snapshot: Snapshot,
                           totalCents: int, userId: Id, now: nat)
      returns (r: Reply)
      modifies this
      ensures (View(), r) ==
              Exec(old(View()), Finalize(id, expectedVersion, number, issueDate, snapshot, totalCents, userId, now))
      ensures r == if id in old(invoices) && old(invoices)[id].status == Draft && old(invoices)[id].version == expectedVersion
                   then Committed else Refused
      ensures r == Committed ==> View() == old(View()).(
                  invoices := old(invoices)[id := old(invoices)[id].(
                    status := Finalized, number := Some(number), issueDate := Some(issueDate),
                    snapshot := Some(snapshot), totalCents := Some(totalCents), finalizedAt := Some(now),
                    finalizedBy := Some(userId), updatedAt := now, version := expectedVersion + 1)])
      ensures r == Refused ==> View() == old(View())
    {
      if id !in invoices || invoices[id].status != Draft || invoices[id].version != expectedVersion {
        return Refused;
      }
      var inv := invoices[id];
      invoices := invoices[id := inv.(
        status := Finalized, number := Some(number), issueDate := Some(issueDate), snapshot := Some(snapshot),
        totalCents := Some(totalCents), finalizedAt := Some(now), finalizedBy := Some(userId),
        updatedAt := now, version := inv.version + 1)];
      r := Committed;
    }

    method SetInvoicePaid(id: Id, paidDate: Option<string>, now: nat) returns (r: Reply)
      modifies this
      ensures (View(), r) == Exec(old(View()), SetPaid(id, paidDate, now))
      ensures r == if id in old(invoices) && old(invoices)[id].status == Finalized then Committed else Refused
      ensures r == Committed ==> View() == old(View()).(
                  invoices := old(invoices)[id := old(invoices)[id].(paidDate := paidDate, updatedAt := now)])
      ensures r == Refused ==> View() == old(View())
    {
      if id !in invoices || invoices[id].status != Finalized { return Refused; }
      invoices := invoices[id := invoices[id].(paidDate := paidDate, updatedAt := now)];
      r := Committed;
    }

    method SetInvoicePdfKey(id: Id, key: string) returns (r: Reply)
      modifies this
      ensures (View(), r) == Exec(old(View()), SetPdfKey(id, key))
      ensures r == if id in old(invoices) && old(invoices)[id].status == Finalized then Committed else Refused
      ensures r == Committed ==> View() == old(View()).(
                  invoices := old(invoices)[id := old(invoices)[id].(pdfKey := Some(key))])
      ensures r == Refused ==> View() == old(View())
    {
      if id !in invoices || invoices[id].status != Finalized { return Refused; }
      invoices := invoices[id := invoices[id].(pdfKey := Some(key))];
      r := Committed;
    }

    method IncrementInvoiceCounter(instanceId: Id) returns (r: Reply)
      modifies this
      ensures (View(), r) == Exec(old(View()), Increment(instanceId))
      ensures var n := if instanceId in old(counters) then old(counters)[instanceId] + 1 else 1;
              r == Allocated(n) && View() == old(View()).(counters := old(counters)[instanceId := n])
    {
      var n := (if instanceId in counters then counters[instanceId] else 0) + 1;
      counters := counters[instanceId := n];
      r := Allocated(n);
    }

    method SetNextInvoiceNumber(instanceId: Id, value: nat) returns (r: Reply)
      modifies this
      ensures (View(), r) == Exec(old(View()), SetNext(instanceId, value))
      ensures r == if instanceId in old(counters) && old(counters)[instanceId] > value then Refused else Committed
      ensures r == Committed ==> View() == old(View()).(counters := old(counters)[instanceId := value])
      ensures r == Refused ==> View() == old(View())
    {
      if instanceId in counters && counters[instanceId] > value { return Refused; }
      counters := counters[instanceId := value];
      r := Committed;
    }
  }

  lemma {:induction false} AttachConditions(t: Tables, ids: seq<Id>, invoiceId: Id, projectId: Id)
    ensures AllHold(t, Attaches(ids, invoiceId, projectId)) <==> forall x :: x in ids ==> CanAttach(t, x, projectId)
  {
    var ws := Attaches(ids, invoiceId, projectId);
    if AllHold(t, ws) {
      forall x | x in ids
        ensures CanAttach(t, x, projectId)
      {
        var i :| 0 <= i < |ids| && ids[i] == x;
        assert Holds(t, ws[i]);
      }
    }
  }

  lemma {:induction false} DetachConditions(t: Tables, ids: seq<Id>, invoiceId: Id)
    ensures AllHold(t, Detaches(ids, invoiceId)) <==> forall x :: x in ids ==> IsOn(t, x, invoiceId)
  {
    var ws := Detaches(ids, invoiceId);
    if AllHold(t, ws) {
      forall x | x in ids
        ensures IsOn(t, x, invoiceId)
      {
        var i :| 0 <= i < |ids| && ids[i] == x;
        assert Holds(t, ws[i]);
      }
    }
  }
}
