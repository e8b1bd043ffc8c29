/** A run that reaches the end of the 32-bit invoice numbers (api/src/graphql/mutations.rs): two
    finalized invoices of one instance under one number. */
module InvoiceSaturation {
  import opened Prelude
  import opened Money
  import opened InvoiceRows
  import opened Snapshots
  import opened InvoiceTables
  import opened InvoiceRuns
  import opened InvoiceTheorems

  // ---------------------------------------------------------------- runs go on

  function Last(r: Run): Tables
    requires Shaped(r)
  {
    r.states[|r.calls|]
  }

  /** The call may come next: it read earlier states, its new id is fresh, its number is its own. */
  ghost predicate CanFollow(r: Run, c: Call)
    requires Shaped(r)
  {
    && ReadsEarlier(c, |r.calls|)
    && (c.NewInvoice? ==> forall m :: 0 <= m < |r.states| ==> c.id !in r.states[m].invoices)
    && (c.Freeze? ==>
          && r.calls[c.allocAt].Allocate?
          && (c.id in r.states[c.readAt].invoices ==>
                r.calls[c.allocAt].instanceId == r.states[c.readAt].invoices[c.id].instanceId)
          && forall i :: 0 <= i < |r.calls| && r.calls[i].Freeze? ==> r.calls[i].allocAt != c.allocAt)
  }

  /** The run with one more call, leading to a given state. */
  function Longer(r: Run, c: Call, t: Tables): Run { Run(r.states + [t], r.calls + [c]) }

  /** What a call does depends on the states and calls up to it alone. */
  lemma {:induction false} PrepareSame(r: Run, s: Run, k: nat)
    requires Shaped(r) && Shaped(s) && k < |r.calls| && k < |s.calls|
    requires r.states[..k + 1] == s.states[..k + 1] && r.calls[..k + 1] == s.calls[..k + 1]
    requires ReadsEarlier(r.calls[k], k) && OwnNumber(r, k)
    ensures r.calls[k] == s.calls[k] && OwnNumber(s, k) && Prepare(r, k) == Prepare(s, k)
    ensures FreshId(r, k) ==> FreshId(s, k)
  {
    assert forall m :: 0 <= m <= k ==> r.states[..k + 1][m] == r.states[m] && s.states[..k + 1][m] == s.states[m];
    assert forall m :: 0 <= m <= k ==> r.calls[..k + 1][m] == r.calls[m] && s.calls[..k + 1][m] == s.calls[m];
    assert r.states[k] == s.states[k] && r.calls[k] == s.calls[k];
  }

  lemma {:induction false} EarlierStep(r: Run, next: Run, k: nat)
    requires Shaped(r) && Shaped(next) && k < |r.calls| && StepOk(r, k)
    requires r.states <= next.states && r.calls <= next.calls
    ensures StepOk(next, k)
  {
    assert next.states[..k + 1] == r.states[..k + 1] && next.calls[..k + 1] == r.calls[..k + 1];
    PrepareSame(r, next, k);
  }

  lemma {:induction false} EarlierSteps(r: Run, next: Run)
    requires IsRun(r) && Shaped(next) && r.states <= next.states && r.calls <= next.calls
    ensures forall k :: 0 <= k < |r.calls| ==> StepOk(next, k)
  {
    forall k | 0 <= k < |r.calls|
      ensures StepOk(next, k)
    {
      assert StepOk(r, k);
      EarlierStep(r, next, k);
    }
  }

  /** The step of the added call. */
  lemma {:induction false} AddedStep(r: Run, c: Call) returns (next: Run)
    requires Shaped(r) && CanFollow(r, c)
    ensures Shaped(next) && next == Longer(r, c, Last(next)) && StepOk(next, |r.calls|)
    ensures r.states <= next.states && r.calls <= next.calls
  {
    var n := |r.calls|;
    var probe := Longer(r, c, Last(r));
    assert probe.calls[n] == c && forall m :: 0 <= m <= n ==> probe.states[m] == r.states[m];
    assert forall m :: 0 <= m < n ==> probe.calls[m] == r.calls[m];
    assert OwnNumber(probe, n) && FreshId(probe, n);
    next := Longer(r, c, match Prepare(probe, n) case None => Last(r) case Some(op) => Exec(Last(r), op).0);
    assert next.states[..n + 1] == probe.states[..n + 1] && next.calls[..n + 1] == probe.calls[..n + 1];
    PrepareSame(probe, next, n);
    assert next.states[n] == Last(r);
  }

  lemma {:induction false} OneUseKept(r: Run, c: Call, next: Run)
    requires IsRun(r) && CanFollow(r, c) && Shaped(next) && next.calls == r.calls + [c]
    ensures OneUsePerNumber(next)
  {
    assert forall i :: 0 <= i < |r.calls| ==> next.calls[i] == r.calls[i];
  }

  /** Every run can be continued with any call that may follow. */
  lemma {:induction false} Continue(r: Run, c: Call) returns (next: Run)
    requires IsRun(r) && CanFollow(r, c)
    ensures IsRun(next) && next == Longer(r, c, Last(next))
    ensures OpOf(next, |r.calls|).None? ==> Last(next) == Last(r)
    ensures OpOf(next, |r.calls|).Some? ==> Last(next) == Exec(Last(r), OpOf(next, |r.calls|).value).0
  {
    next := AddedStep(r, c);
    EarlierSteps(r, next);
    OneUseKept(r, c, next);
    assert next.states[0] == r.states[0] && next.states[|r.calls|] == Last(r);
    assert forall k :: 0 <= k < |next.calls| ==> StepOk(next, k);
  }

  // ---------------------------------------------------------------- two drafts

  const CONTENT := Content("2025-01-01", "one hour", 100, 100)

  /** A draft of the instance with the one item, which points back and is worth 1.00. */
  predicate DraftWith(t: Tables, instanceId: Id, id: Id, item: Id) {
    && IsDraft(t, id) && t.invoices[id].itemIds == {item} && t.invoices[id].instanceId == instanceId
    && IsOn(t, item, id) && t.items[item].content == CONTENT
  }

  lemma {:induction false} ItemMade(r: Run, item: Id) returns (next: Run)
    requires IsRun(r) && item !in Last(r).items
    ensures IsRun(next) && next.states == r.states + [Last(next)]
    ensures |next.calls| == |r.calls| + 1 && r.calls <= next.calls && !next.calls[|r.calls|].Freeze?
    ensures Last(next) == Last(r).(items := Last(r).items[item := BillableItem("i", "p", CONTENT, None, "u", 0, 0)])
  {
    next := Continue(r, NewItem(item, "i", "p", CONTENT, "u", 0));
    assert OpOf(next, |r.calls|) == Some(CreateItem(item, "i", "p", CONTENT, "u", 0));
  }

  lemma {:induction false} InvoiceMade(r: Run, id: Id, item: Id) returns (next: Run)
    requires IsRun(r) && forall m :: 0 <= m < |r.states| ==> id !in r.states[m].invoices
    requires item in Last(r).items && Last(r).items[item] == BillableItem("i", "p", CONTENT, None, "u", 0, 0)
    ensures IsRun(next) && next.states == r.states + [Last(next)]
    ensures |next.calls| == |r.calls| + 1 && r.calls <= next.calls && !next.calls[|r.calls|].Freeze?
    ensures Last(next).counters == Last(r).counters && DraftWith(Last(next), "i", id, item)
    ensures Last(next).invoices == Last(r).invoices[id := Last(next).invoices[id]]
    ensures Last(next).items == Last(r).items[item := Last(next).items[item]]
  {
    var t := Last(r);
    var op := CreateInvoice(id, "i", "p", [item], "u", 0);
    next := Continue(r, InvoiceRuns.NewInvoice(id, "i", "p", [item], "u", 0));
    assert Elements([item]) == {item};
    assert OpOf(next, |r.calls|) == Some(op);
    assert id !in r.states[|r.calls|].invoices;
    assert Commits(t, op);
    assert Linked(t.items, {item}, Some(id)) == t.items[item := t.items[item].(invoiceId := Some(id))];
  }

  /** Two drafts of one instance, with nothing allocated yet. */
  lemma {:induction false} TwoDrafts() returns (r: Run)
    ensures IsRun(r) && |r.calls| == 4 && Last(r).counters == map[]
    ensures DraftWith(Last(r), "i", "a", "x") && DraftWith(Last(r), "i", "b", "y")
    ensures forall i :: 0 <= i < |r.calls| ==> !r.calls[i].Freeze?
  {
    var r0 := Run([Tables(map[], map[], map[])], []);
    var r1 := ItemMade(r0, "x");
    var r2 := ItemMade(r1, "y");
    var r3 := InvoiceMade(r2, "a", "x");
    r := InvoiceMade(r3, "b", "y");
    assert forall i :: 0 <= i < 3 ==> r.calls[i] == r3.calls[i];
  }

  // ---------------------------------------------------------------- counting up

  /** Allocating again and again, as failed finalizes do, counts up by ones. */
  lemma {:induction false} Allocations(r: Run, n: nat) returns (next: Run)
    requires IsRun(r) && Last(r).counters == map[]
    ensures IsRun(next) && |next.calls| == |r.calls| + n && r.calls <= next.calls
    ensures Last(next).invoices == Last(r).invoices && Last(next).items == Last(r).items
    ensures NextNumber(Last(next), "i") == n + 1
    ensures forall m :: |r.calls| <= m < |next.calls| ==>
              next.calls[m] == Allocate("i") && NextNumber(next.states[m], "i") == m - |r.calls| + 1
  {
    if n == 0 {
      next := r;
    } else {
      var before := Allocations(r, n - 1);
      next := Continue(before, Allocate("i"));
      assert OpOf(next, |before.calls|) == Some(Increment("i"));
      assert forall m :: 0 <= m < |before.states| ==> next.states[m] == before.states[m];
    }
  }

  // ---------------------------------------------------------------- two finalized invoices

  lemma {:induction false} FinalizeNext(r: Run, id: Id, item: Id, allocAt: nat) returns (next: Run)
    requires IsRun(r) && DraftWith(Last(r), "i", id, item) && allocAt < |r.calls| && r.calls[allocAt] == Allocate("i")
    requires forall i :: 0 <= i < |r.calls| && r.calls[i].Freeze? ==> r.calls[i].allocAt != allocAt
    ensures IsRun(next) && next.states == r.states + [Last(next)] && |next.calls| == |r.calls| + 1
    ensures r.calls <= next.calls && next.calls[|r.calls|].Freeze? && next.calls[|r.calls|].allocAt == allocAt
    ensures IsFinalized(Last(next), id) && Last(next).invoices[id].instanceId == "i"
    ensures Last(next).invoices[id].number == Some(ToU32(NumberFrom(r, allocAt)))
    ensures Last(next).invoices == Last(r).invoices[id := Last(next).invoices[id]] && Last(next).items == Last(r).items
  {
    var n := |r.calls|;
    var c := Freeze(n, id, [item], [n], allocAt, false, "2025-01-31", "u", 0);
    next := ContinueFreeze(r, c);
    FreezeEffect(r.states, c, item, ToU32(NumberFrom(r, allocAt)));
  }

  /** A finalize that read a draft with one item in the last state gives it the number. */
  lemma {:induction false} FreezeEffect(states: seq<Tables>, c: Call, item: Id, number: nat)
    requires |states| > 0 && c.Freeze? && !c.gstRegistered
    requires c.order == [item] && c.readAt == |states| - 1 && c.itemReadAt == [c.readAt]
    requires DraftWith(states[c.readAt], "i", c.id, item)
    ensures PrepareFreeze(states, c, number).Some?
    ensures var t := states[c.readAt];
            var t' := Exec(t, PrepareFreeze(states, c, number).value).0;
            && IsFinalized(t', c.id) && t'.invoices[c.id].instanceId == "i" && t'.invoices[c.id].number == Some(number)
            && t'.invoices == t.invoices[c.id := t'.invoices[c.id]] && t'.items == t.items
  {
    CanFreeze(states, c, item);
    SafeTotal(states, c, number);
    FreezeOp(states, c, number);
  }

  lemma {:induction false} CanFreeze(states: seq<Tables>, c: Call, item: Id)
    requires |states| > 0 && c.Freeze? && c.order == [item] && c.readAt == |states| - 1 && c.itemReadAt == [c.readAt]
    requires DraftWith(states[c.readAt], "i", c.id, item)
    ensures FreezeReadsAgree(states, c)
  {
    assert Elements([item]) == {item};
  }

  lemma {:induction false} ContinueFreeze(r: Run, c: Call) returns (next: Run)
    requires IsRun(r) && CanFollow(r, c) && c.Freeze?
    ensures IsRun(next) && next == Longer(r, c, Last(next))
    ensures var op := PrepareFreeze(r.states, c, ToU32(NumberFrom(r, c.allocAt)));
            Last(next) == if op.Some? then Exec(Last(r), op.value).0 else Last(r)
  {
    next := Continue(r, c);
    var n := |r.calls|;
    assert next.states[..n + 1] == r.states && next.calls[n] == c && next.calls[c.allocAt] == r.calls[c.allocAt];
    assert next.states[c.allocAt] == r.states[c.allocAt];
  }

  /** The write of a finalize that read its draft in the last state. */
  lemma {:induction false} FreezeOp(states: seq<Tables>, c: Call, number: nat)
    requires c.Freeze? && c.readAt == |states| - 1 >= 0 && ReadBetween(c.order, c.itemReadAt, 0, |states| - 1)
    requires FreezeReadsAgree(states, c) && TotalIsSafe(Built(states, c, number).totalCents)
    ensures PrepareFreeze(states, c, number).Some?
    ensures var t := states[c.readAt];
            var t' := Exec(t, PrepareFreeze(states, c, number).value).0;
            && IsFinalized(t', c.id) && t'.invoices[c.id].instanceId == t.invoices[c.id].instanceId
            && t'.invoices[c.id].number == Some(number)
            && t'.invoices == t.invoices[c.id := t'.invoices[c.id]] && t'.items == t.items
  {
    FinalizeApplied(states[c.readAt], PrepareFreeze(states, c, number).value);
  }

  lemma {:induction false} FinalizeApplied(t: Tables, op: Op)
    requires op.Finalize? && IsDraftAt(t, op.id, op.expected)
    ensures var t' := Exec(t, op).0;
            && IsFinalized(t', op.id) && t'.invoices[op.id].instanceId == t.invoices[op.id].instanceId
            && t'.invoices[op.id].number == Some(op.number)
            && t'.invoices == t.invoices[op.id := t'.invoices[op.id]] && t'.items == t.items
  {}

  lemma {:induction false} SafeTotal(states: seq<Tables>, c: Call, number: nat)
    requires c.Freeze? && c.readAt < |states| && ReadBetween(c.order, c.itemReadAt, 0, |states| - 1)
    requires FreezeReadsAgree(states, c) && |c.order| == 1 && !c.gstRegistered
    requires states[c.itemReadAt[0]].items[c.order[0]].content == CONTENT
    ensures TotalIsSafe(Built(states, c, number).totalCents)
  {
    var rows := RowsRead(states, c.id, c.order, c.itemReadAt);
    SnapshotTotal(false, rows, number, c.issueDate);
    assert Charges(rows) == [CONTENT.Charge()];
    SmallInvoicesAreSafe(Charges(rows), false);
  }

  /** The saturation is real: a run from empty tables, all of its calls within what the
      resolvers let through, that ends in two finalized invoices of one instance with one
      number, although their allocations returned two. */
  lemma {:induction false} SaturatedPair() returns (r: Run)
    ensures IsRun(r) && |r.calls| >= 2 && r.calls[|r.calls| - 2].Freeze? && r.calls[|r.calls| - 1].Freeze?
    ensures AllocatedFor(r, |r.calls| - 2) == U32_MAX && AllocatedFor(r, |r.calls| - 1) == U32_MAX + 1
    ensures var t := Last(r);
            && IsFinalized(t, "a") && IsFinalized(t, "b")
            && t.invoices["a"].instanceId == t.invoices["b"].instanceId
            && t.invoices["a"].number == t.invoices["b"].number == Some(U32_MAX)
  {
    var drafts := TwoDrafts();
    var counted := Allocations(drafts, U32_MAX + 1);
    var first, second := 4 + (U32_MAX - 1), 4 + U32_MAX;
    assert forall i :: 0 <= i < |counted.calls| ==> !counted.calls[i].Freeze? by {
      assert forall i :: 0 <= i < 4 ==> counted.calls[i] == drafts.calls[i];
    }
    var one := FinalizeNext(counted, "a", "x", first);
    assert forall i :: 0 <= i < |counted.calls| ==> one.calls[i] == counted.calls[i];
    assert one.states[second] == counted.states[second];
    r := FinalizeNext(one, "b", "y", second);
    assert forall i :: 0 <= i < |one.calls| ==> r.calls[i] == one.calls[i];
    assert r.states[first] == counted.states[first] && r.states[second] == counted.states[second];
  }
}
