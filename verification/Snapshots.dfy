/** The rows of the invoicing tables (api/src/db.rs) and the snapshot an invoice freezes
    (api/src/invoicing/snapshot.rs). */
module InvoiceRows {
  import opened Prelude
  import opened Money

  /** What a member may edit on a billable item. */
  datatype Content = Content(date: string, description: string, quantityHundredths: int, unitPriceCents: int) {
    function Charge(): Priced { Priced(quantityHundredths, unitPriceCents) }
  }

  datatype BillableItem = BillableItem(
    instanceId: Id, projectId: Id, content: Content, invoiceId: Option<Id>,
    createdBy: Id, createdAt: nat, updatedAt: nat)

  datatype Line = Line(
    date: string, description: string, quantity: string,
    quantityHundredths: int, unitPriceCents: int, amountCents: int)

  /** The frozen part of an invoice that its items decide, with its number and date. */
  datatype Snapshot = Snapshot(
    displayNumber: string, issueDate: string, gstRegistered: bool, lines: seq<Line>,
    subtotalCents: int, gstCents: int, totalCents: int)

  datatype InvoiceStatus = Draft | Finalized

  datatype Invoice = Invoice(
    instanceId: Id, projectId: Id, status: InvoiceStatus, version: nat, itemIds: set<Id>,
    createdBy: Id, createdAt: nat, updatedAt: nat,
    number: Option<nat>, issueDate: Option<string>, snapshot: Option<Snapshot>, totalCents: Option<int>,
    finalizedAt: Option<nat>, finalizedBy: Option<Id>, paidDate: Option<string>, pdfKey: Option<string>)
}

module Snapshots {
  import opened Prelude
  import opened Money
  import opened MoneyText
  import opened InvoiceRows

  /** Print order: by date, then by creation time. */
  predicate PrintsBefore(a: BillableItem, b: BillableItem) {
    if a.content.date == b.content.date then a.createdAt <= b.createdAt
    else AtMost(a.content.date, b.content.date)
  }

  function Insert(x: BillableItem, sorted: seq<BillableItem>): seq<BillableItem> {
    if sorted == [] || PrintsBefore(x, sorted[0]) then [x] + sorted
    else [sorted[0]] + Insert(x, sorted[1..])
  }

  /** A stable sort into print order. */
  function SortItems(items: seq<BillableItem>): seq<BillableItem> {
    if items == [] then [] else Insert(items[0], SortItems(items[1..]))
  }

  function ItemLine(item: BillableItem): Line {
    var c := item.content;
    Line(c.date, c.description, FormatQuantity(c.quantityHundredths),
         c.quantityHundredths, c.unitPriceCents, LineAmountCents(c.quantityHundredths, c.unitPriceCents))
  }

  function Lines(items: seq<BillableItem>): seq<Line> {
    seq(|items|, i requires 0 <= i < |items| => ItemLine(items[i]))
  }

  function SumAmounts(lines: seq<Line>): int {
    if lines == [] then 0 else SumAmounts(lines[..|lines| - 1]) + lines[|lines| - 1].amountCents
  }

  function Charges(items: seq<BillableItem>): seq<Priced> {
    seq(|items|, i requires 0 <= i < |items| => items[i].content.Charge())
  }

  /** At least three digits, zeros in front. */
  function DisplayNumber(n: nat): string {
    var d := Decimal(n);
    if |d| == 1 then "00" + d else if |d| == 2 then "0" + d else d
  }

  function BuildSnapshot(gstRegistered: bool, items: seq<BillableItem>, number: nat, issueDate: string): Snapshot {
    var lines := Lines(SortItems(items));
    var subtotal := SumAmounts(lines);
    var gst := if gstRegistered then GstCents(subtotal) else 0;
    Snapshot(DisplayNumber(number), issueDate, gstRegistered, lines, subtotal, gst, subtotal + gst)
  }

  predicate InPrintOrder(items: seq<BillableItem>) {
    forall i, j :: 0 <= i < j < |items| ==> PrintsBefore(items[i], items[j])
  }

  /** The items that print at one place of the order, as they stand in the list. */
  function Ties(items: seq<BillableItem>, x: BillableItem): seq<BillableItem> {
    if items == [] then []
    else if PrintsBefore(items[0], x) && PrintsBefore(x, items[0]) then [items[0]] + Ties(items[1..], x)
    else Ties(items[1..], x)
  }

  lemma {:induction false} PrintsBeforeTotal(a: BillableItem, b: BillableItem)
    ensures PrintsBefore(a, b) || PrintsBefore(b, a)
  {
    AtMostTotal(a.content.date, b.content.date);
  }

  lemma {:induction false} PrintsBeforeTransitive(a: BillableItem, b: BillableItem, c: BillableItem)
    requires PrintsBefore(a, b) && PrintsBefore(b, c)
    ensures PrintsBefore(a, c)
  {
    if a.content.date == c.content.date != b.content.date {
      AtMostAntisymmetric(a.content.date, b.content.date);
    } else if a.content.date != b.content.date && b.content.date != c.content.date {
      AtMostTransitive(a.content.date, b.content.date, c.content.date);
    }
  }

  /** The sort keeps exactly the same items, puts them in print order and leaves items that
      tie in the order they came in. */
  lemma {:induction false} SortItemsSpec(items: seq<BillableItem>)
    ensures multiset(SortItems(items)) == multiset(items)
    ensures InPrintOrder(SortItems(items))
    ensures forall x :: Ties(SortItems(items), x) == Ties(items, x)
  {
    if items != [] {
      SortItemsSpec(items[1..]);
      InsertSpec(items[0], SortItems(items[1..]));
      assert items == [items[0]] + items[1..];
      forall x
        ensures Ties(SortItems(items), x) == Ties(items, x)
      {
        InsertTies(items[0], SortItems(items[1..]), x);
      }
    }
  }

  lemma {:induction false} InsertSpec(x: BillableItem, sorted: seq<BillableItem>)
    requires InPrintOrder(sorted)
    ensures InPrintOrder(Insert(x, sorted))
    ensures multiset(Insert(x, sorted)) == multiset(sorted) + multiset{x}
  {
    if sorted == [] {
    } else if PrintsBefore(x, sorted[0]) {
      forall j | 0 <= j < |sorted|
        ensures PrintsBefore(x, sorted[j])
      {
        if j > 0 {
          PrintsBeforeTransitive(x, sorted[0], sorted[j]);
        }
      }
    } else {
      InsertSpec(x, sorted[1..]);
      PrintsBeforeTotal(x, sorted[0]);
      var rest := Insert(x, sorted[1..]);
      assert sorted == [sorted[0]] + sorted[1..];
      forall y | y in rest
        ensures PrintsBefore(sorted[0], y)
      {
        assert y in multiset(rest);
        assert y == x || y in sorted[1..];
      }
    }
  }

  lemma {:induction false} InsertTies(x: BillableItem, sorted: seq<BillableItem>, k: BillableItem)
    ensures Ties(Insert(x, sorted), k) == Ties([x] + sorted, k)
  {
    assert ([x] + sorted)[1..] == sorted;
    if sorted != [] && !PrintsBefore(x, sorted[0]) {
      var rest := Insert(x, sorted[1..]);
      InsertTies(x, sorted[1..], k);
      assert ([sorted[0]] + rest)[1..] == rest;
      assert ([x] + sorted[1..])[1..] == sorted[1..];
      PrintsBeforeTotal(x, sorted[0]);
      if PrintsBefore(sorted[0], k) && PrintsBefore(k, sorted[0]) && PrintsBefore(x, k) && PrintsBefore(k, x) {
        PrintsBeforeTransitive(x, k, sorted[0]);
      }
    }
  }

  // ---------------------------------------------------------------- what a snapshot shows

  /** `place` puts the rows into print order: each row once, earlier dates first, on one date
      earlier creation first, and on one creation time as the rows were read. */
  ghost predicate Printed(rows: seq<BillableItem>, place: seq<nat>) {
    && |place| == |rows| && Distinct(place) && (forall k :: 0 <= k < |place| ==> place[k] < |rows|)
    && forall i, j :: 0 <= i < j < |place| ==> StandsBefore(rows, place[i], place[j])
  }

  predicate StandsBefore(rows: seq<BillableItem>, i: nat, j: nat)
    requires i < |rows| && j < |rows|
  {
    var a, b := rows[i], rows[j];
    if a.content.date != b.content.date then AtMost(a.content.date, b.content.date)
    else a.createdAt < b.createdAt || (a.createdAt == b.createdAt && i < j)
  }

  /** A line carries its row's values, the exact product rounded, and the quantity as a text
      that reads back. */
  predicate LineShows(line: Line, row: BillableItem) {
    && line.date == row.content.date && line.description == row.content.description
    && line.quantityHundredths == row.content.quantityHundredths && line.unitPriceCents == row.content.unitPriceCents
    && RoundedHalfAway(row.content.quantityHundredths * row.content.unitPriceCents, 100, line.amountCents)
    && ParseQuantity(line.quantity) == Ok(row.content.quantityHundredths)
  }

  /** The number in decimal, with zeros in front only up to three digits. */
  predicate ShowsNumber(text: string, n: nat) {
    |text| >= 3 && AllDigits(text) && Denotes(text) == n && (|text| > 3 ==> text[0] != '0')
  }

  /** Field by field, a snapshot of these rows in print order. */
  ghost predicate ShowsRows(s: Snapshot, rows: seq<BillableItem>, place: seq<nat>, gstRegistered: bool, number: nat,
                            issueDate: string) {
    && Printed(rows, place)
    && |s.lines| == |rows| && (forall k :: 0 <= k < |place| ==> LineShows(s.lines[k], rows[place[k]]))
    && s.subtotalCents == SumAmounts(s.lines)
    && s.gstRegistered == gstRegistered
    && (if gstRegistered then RoundedHalfAway(s.subtotalCents, 10, s.gstCents) else s.gstCents == 0)
    && s.totalCents == s.subtotalCents + s.gstCents
    && s.issueDate == issueDate && ShowsNumber(s.displayNumber, number)
  }

  /** Where the insertion puts an item: behind everything it does not print before. */
  lemma {:induction false} InsertPlace(x: BillableItem, sorted: seq<BillableItem>) returns (p: nat)
    ensures p <= |sorted| && Insert(x, sorted) == sorted[..p] + [x] + sorted[p..]
    ensures forall i :: 0 <= i < p ==> !PrintsBefore(x, sorted[i])
  {
    if sorted == [] || PrintsBefore(x, sorted[0]) {
      p := 0;
    } else {
      var p' := InsertPlace(x, sorted[1..]);
      p := p' + 1;
      assert sorted[..p] == [sorted[0]] + sorted[1..][..p'] && sorted[p..] == sorted[1..][p'..];
      assert forall i :: 1 <= i < p ==> sorted[i] == sorted[1..][i - 1];
    }
  }

  /** The places at which the rows stand in their sorted list; of two that tie, the earlier
      row first. */
  ghost predicate Places(sorted: seq<BillableItem>, rows: seq<BillableItem>, place: seq<nat>) {
    && |place| == |rows| == |sorted| && Distinct(place)
    && (forall k :: 0 <= k < |place| ==> place[k] < |rows| && sorted[k] == rows[place[k]])
    && forall i, j :: 0 <= i < j < |place| && PrintsBefore(sorted[j], sorted[i]) ==> place[i] < place[j]
  }

  lemma {:induction false} SortPlaces(rows: seq<BillableItem>) returns (place: seq<nat>)
    ensures Places(SortItems(rows), rows, place)
  {
    if rows == [] {
      place := [];
    } else {
      var sorted := SortItems(rows[1..]);
      var tail := SortPlaces(rows[1..]);
      var p := InsertPlace(rows[0], sorted);
      place := Shifted(tail[..p]) + [0] + Shifted(tail[p..]);
      PlacesWithFirst(sorted, rows, tail, p, place, SortItems(rows));
    }
  }

  /** The places in the tail, counted from the front of the whole. */
  function Shifted(place: seq<nat>): (r: seq<nat>)
    ensures |r| == |place| && forall k :: 0 <= k < |r| ==> r[k] == place[k] + 1
  {
    seq(|place|, k requires 0 <= k < |place| => place[k] + 1)
  }

  /** Place `k` of the whole list is that of the new row, or stems from the tail. */
  predicate Widened(tail: seq<nat>, p: nat, place: seq<nat>)
    requires p <= |tail| && |place| == |tail| + 1
  {
    && place[p] == 0
    && (forall k :: 0 <= k < p ==> place[k] == tail[k] + 1)
    && (forall k :: p < k < |place| ==> place[k] == tail[k - 1] + 1)
  }

  lemma {:induction false} PlacesWithFirst(sorted: seq<BillableItem>, rows: seq<BillableItem>, tail: seq<nat>, p: nat,
                                           place: seq<nat>, all: seq<BillableItem>)
    requires rows != [] && Places(sorted, rows[1..], tail) && p <= |tail|
    requires place == Shifted(tail[..p]) + [0] + Shifted(tail[p..])
    requires all == sorted[..p] + [rows[0]] + sorted[p..]
    requires forall i :: 0 <= i < p ==> !PrintsBefore(rows[0], sorted[i])
    ensures Places(all, rows, place)
  {
    assert |place| == |tail| + 1 && Widened(tail, p, place);
    WidenedDistinct(tail, p, place);
    forall k | 0 <= k < |place|
      ensures place[k] < |rows| && all[k] == rows[place[k]]
    {
      WidenedAt(sorted, rows, tail, p, place, all, k);
    }
    forall i, j | 0 <= i < j < |place| && PrintsBefore(all[j], all[i])
      ensures place[i] < place[j]
    {
      WidenedStable(sorted, rows[0], tail, p, place, all, i, j);
    }
  }

  lemma {:induction false} WidenedDistinct(tail: seq<nat>, p: nat, place: seq<nat>)
    requires Distinct(tail) && p <= |tail| && |place| == |tail| + 1 && Widened(tail, p, place)
    ensures Distinct(place)
  {
    forall i, j | 0 <= i < j < |place|
      ensures place[i] != place[j]
    {
      WidenedPair(tail, p, place, i, j);
    }
  }

  /** Both places stem from the tail, in the same order, or one of them is the new row's. */
  lemma {:induction false} WidenedPair(tail: seq<nat>, p: nat, place: seq<nat>, i: nat, j: nat)
    requires p <= |tail| && |place| == |tail| + 1 && Widened(tail, p, place) && i < j < |place|
    ensures i == p ==> place[i] == 0 < place[j]
    ensures j == p ==> place[j] == 0 < place[i]
    ensures i != p && j != p ==>
              var m, n := if i < p then i else i - 1, if j < p then j else j - 1;
              m < n < |tail| && place[i] == tail[m] + 1 && place[j] == tail[n] + 1
  {
    assert place[i] == (if i < p then tail[i] + 1 else if i == p then 0 else tail[i - 1] + 1);
    assert place[j] == (if j < p then tail[j] + 1 else if j == p then 0 else tail[j - 1] + 1);
  }

  lemma {:induction false} WidenedAt(sorted: seq<BillableItem>, rows: seq<BillableItem>, tail: seq<nat>, p: nat,
                                     place: seq<nat>, all: seq<BillableItem>, k: nat)
    requires rows != [] && |tail| == |sorted| == |rows| - 1 && p <= |tail| && |place| == |tail| + 1
    requires Widened(tail, p, place) && all == sorted[..p] + [rows[0]] + sorted[p..] && k < |place|
    requires forall m :: 0 <= m < |tail| ==> tail[m] < |rows| - 1 && sorted[m] == rows[1..][tail[m]]
    ensures place[k] < |rows| && all[k] == rows[place[k]]
  {
    assert place[k] == (if k < p then tail[k] + 1 else if k == p then 0 else tail[k - 1] + 1);
    if k != p {
      var m := if k < p then k else k - 1;
      assert all[k] == sorted[m] && rows[1..][tail[m]] == rows[tail[m] + 1];
    }
  }

  lemma {:induction false} WidenedStable(sorted: seq<BillableItem>, first: BillableItem, tail: seq<nat>, p: nat,
                                         place: seq<nat>, all: seq<BillableItem>, i: nat, j: nat)
    requires |tail| == |sorted| && p <= |tail| && |place| == |tail| + 1 && Widened(tail, p, place)
    requires all == sorted[..p] + [first] + sorted[p..]
    requires forall m, n :: 0 <= m < n < |tail| && PrintsBefore(sorted[n], sorted[m]) ==> tail[m] < tail[n]
    requires forall m :: 0 <= m < p ==> !PrintsBefore(first, sorted[m])
    requires i < j < |place| && PrintsBefore(all[j], all[i])
    ensures place[i] < place[j]
  {
    WidenedPair(tail, p, place, i, j);
    assert i < p ==> all[i] == sorted[i];
    if i != p && j != p {
      var m, n := if i < p then i else i - 1, if j < p then j else j - 1;
      assert all[i] == sorted[m] && all[j] == sorted[n];
    }
  }

  lemma {:induction false} SortedIsPrinted(rows: seq<BillableItem>) returns (place: seq<nat>)
    ensures Printed(rows, place)
    ensures |SortItems(rows)| == |place| && forall k :: 0 <= k < |place| ==> SortItems(rows)[k] == rows[place[k]]
  {
    place := SortPlaces(rows);
    SortItemsSpec(rows);
    forall i, j | 0 <= i < j < |place|
      ensures StandsBefore(rows, place[i], place[j])
    {
      assert PrintsBefore(SortItems(rows)[i], SortItems(rows)[j]);
    }
  }

  lemma {:induction false} ItemLineShows(item: BillableItem)
    requires item.content.Charge().InRange()
    ensures LineShows(ItemLine(item), item)
  {
    LineAmountExact(item.content.Charge());
    FormatThenParse(item.content.quantityHundredths);
  }

  lemma {:induction false} DisplayNumberShows(n: nat)
    ensures ShowsNumber(DisplayNumber(n), n)
  {
    var d := Decimal(n);
    assert |Decimal(0)| == 1;
    if |d| < 3 {
      var zeros := if |d| == 1 then "00" else "0";
      ZerosDenote(zeros);
      DenotesConcat(zeros, d);
    }
  }

  lemma {:induction false} ZerosDenote(s: string)
    requires forall i :: 0 <= i < |s| ==> s[i] == '0'
    ensures AllDigits(s) && Denotes(s) == 0
  {
    if s != [] {
      ZerosDenote(s[..|s| - 1]);
    }
  }

  /** The snapshot built from rows with chargeable values shows exactly them. */
  lemma {:induction false} BuiltShowsRows(gstRegistered: bool, rows: seq<BillableItem>, number: nat, issueDate: string)
    returns (place: seq<nat>)
    requires forall row :: row in rows ==> row.content.Charge().InRange()
    requires |rows| <= MAX_INVOICE_ITEMS
    ensures ShowsRows(BuildSnapshot(gstRegistered, rows, number, issueDate), rows, place, gstRegistered, number, issueDate)
  {
    place := SortedIsPrinted(rows);
    var s := BuildSnapshot(gstRegistered, rows, number, issueDate);
    forall k | 0 <= k < |place|
      ensures LineShows(s.lines[k], rows[place[k]])
    {
      ItemLineShows(rows[place[k]]);
    }
    DisplayNumberShows(number);
    SnapshotTotal(gstRegistered, rows, number, issueDate);
    forall p | p in Charges(rows)
      ensures p.InRange()
    {
      var m :| 0 <= m < |rows| && p == Charges(rows)[m];
      assert rows[m] in rows;
    }
    WholeInvoiceFits(Charges(rows), gstRegistered);
  }

  lemma {:induction false} SumOfLines(items: seq<BillableItem>)
    ensures SumAmounts(Lines(items)) == SumCents(Charges(items))
  {
    AmountsAgree(Lines(items), Charges(items));
  }

  lemma {:induction false} AmountsAgree(lines: seq<Line>, charges: seq<Priced>)
    requires |lines| == |charges| && forall i :: 0 <= i < |lines| ==> lines[i].amountCents == charges[i].Amount()
    ensures SumAmounts(lines) == SumCents(charges)
  {
    if lines != [] {
      AmountsAgree(lines[..|lines| - 1], charges[..|charges| - 1]);
    }
  }

  /** What is charged in all does not depend on the order of the items. */
  lemma {:induction false} SumOfPermutation(a: seq<BillableItem>, b: seq<BillableItem>)
    requires multiset(a) == multiset(b)
    ensures SumCents(Charges(a)) == SumCents(Charges(b))
  {
    if a == [] {
      assert |b| == |multiset(b)| == 0;
    } else {
      var j := ItemIn(b, a[0], a);
      RemoveItem(a, 0, b, j);
      SumOfPermutation(a[..0] + a[1..], b[..j] + b[j + 1..]);
      SumWithout(a, 0);
      SumWithout(b, j);
    }
  }

  lemma {:induction false} ItemIn(b: seq<BillableItem>, item: BillableItem, a: seq<BillableItem>) returns (j: nat)
    requires multiset(a) == multiset(b) && item in a
    ensures j < |b| && b[j] == item
  {
    assert item in multiset(b);
    j :| 0 <= j < |b| && b[j] == item;
  }

  lemma {:induction false} SumWithout(items: seq<BillableItem>, j: nat)
    requires j < |items|
    ensures SumCents(Charges(items)) == SumCents(Charges(items[..j] + items[j + 1..])) + items[j].content.Charge().Amount()
  {
    SumRemove(Charges(items), j);
    assert Charges(items)[..j] + Charges(items)[j + 1..] == Charges(items[..j] + items[j + 1..]);
  }

  lemma {:induction false} RemoveItem(a: seq<BillableItem>, i: nat, b: seq<BillableItem>, j: nat)
    requires i < |a| && j < |b| && a[i] == b[j] && multiset(a) == multiset(b)
    ensures multiset(a[..i] + a[i + 1..]) == multiset(b[..j] + b[j + 1..])
  {
    assert a == a[..i] + [a[i]] + a[i + 1..];
    assert b == b[..j] + [b[j]] + b[j + 1..];
    assert multiset(a[..i] + a[i + 1..]) == multiset(a) - multiset{a[i]};
    assert multiset(b[..j] + b[j + 1..]) == multiset(b) - multiset{b[j]};
  }

  /** The frozen total is the total of the items' charges, whatever order the items were
      read or printed in. */
  lemma {:induction false} SnapshotTotal(gstRegistered: bool, items: seq<BillableItem>, number: nat, issueDate: string)
    ensures var s := BuildSnapshot(gstRegistered, items, number, issueDate);
            && s.subtotalCents == SumCents(Charges(items))
            && s.totalCents == TotalCents(Charges(items), gstRegistered)
  {
    SumOfLines(SortItems(items));
    SortItemsSpec(items);
    SumOfPermutation(SortItems(items), items);
  }
}
