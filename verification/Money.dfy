/** Integer money arithmetic (api/src/invoicing/money.rs, api/src/invoicing/mod.rs):
    rounding, line amounts, GST, whole-invoice totals. */
module Money {
  import opened Prelude

  const MAX_QUANTITY_HUNDREDTHS: int := 100_000_000
  const MAX_UNIT_PRICE_CENTS: int := 1_000_000_000
  const MAX_SAFE_TOTAL_CENTS: int := 9_007_199_254_740_991
  const MAX_LINE_CENTS: int := 1_000_000_000_000_000
  const MAX_INVOICE_ITEMS: int := 50
  const I64_MIN: int := -0x8000_0000_0000_0000
  const I64_MAX: int := 0x7fff_ffff_ffff_ffff

  predicate FitsI64(n: int) { I64_MIN <= n <= I64_MAX }

  /** Rounding to the nearest multiple of `1/d`, a half going away from zero. */
  predicate RoundedHalfAway(n: int, d: int, r: int) {
    && -d <= 2 * (n - d * r) <= d
    && (2 * (n - d * r) == d ==> n < 0)
    && (2 * (n - d * r) == -d ==> n >= 0)
  }

  function DivRoundHalfUp(n: int, d: int): (r: int)
    requires d > 0
    ensures RoundedHalfAway(n, d, r)
  {
    if n >= 0 then
      (n + d / 2) / d
    else
      -((-n + d / 2) / d)
  }

  /** The rounding rule leaves no choice, so it says everything about `DivRoundHalfUp`. */
  lemma {:induction false} RoundedHalfAwayUnique(n: int, d: int, r: int)
    requires d > 0 && RoundedHalfAway(n, d, r)
    ensures r == DivRoundHalfUp(n, d)
  {
    SameRounding(n, d, r, DivRoundHalfUp(n, d));
  }

  lemma {:induction false} SameRounding(n: int, d: int, r: int, q: int)
    requires d > 0 && RoundedHalfAway(n, d, r) && RoundedHalfAway(n, d, q)
    ensures r == q
  {
    assert d * r - d * q == d * (r - q);
    SmallMultiple(d, r - q);
  }

  lemma {:induction false} SmallMultiple(d: int, k: int)
    requires d > 0 && -d <= d * k <= d
    ensures k == 0 || (k == 1 && d * k == d) || (k == -1 && d * k == -d)
  {
    if k >= 2 {
      MulMonotone(d, 2, k);
    } else if k <= -2 {
      MulMonotone(d, k, -2);
    }
  }

  lemma {:induction false} MulMonotone(d: int, a: int, b: int)
    requires d >= 0 && a <= b
    ensures d * a <= d * b
  {}

  lemma {:induction false} DivRoundMonotone(m: int, n: int, d: int)
    requires d > 0 && m <= n
    ensures DivRoundHalfUp(m, d) <= DivRoundHalfUp(n, d)
  {
    var a, b := DivRoundHalfUp(m, d), DivRoundHalfUp(n, d);
    assert d * (b + 1) == d * b + d;
    if b < a {
      MulMonotone(d, b + 1, a);
    }
  }

  function ClampI64(v: int): int {
    if v < I64_MIN then I64_MIN else if v > I64_MAX then I64_MAX else v
  }

  function LineAmountCents(quantityHundredths: int, unitPriceCents: int): int {
    ClampI64(DivRoundHalfUp(quantityHundredths * unitPriceCents, 100))
  }

  function GstCents(subtotalCents: int): int {
    ClampI64(DivRoundHalfUp(subtotalCents, 10))
  }

  /** What is charged on one line. */
  datatype Priced = Priced(quantityHundredths: int, unitPriceCents: int) {
    predicate InRange() {
      && 0 < quantityHundredths <= MAX_QUANTITY_HUNDREDTHS
      && 0 <= unitPriceCents <= MAX_UNIT_PRICE_CENTS
    }

    function Amount(): int {
      LineAmountCents(quantityHundredths, unitPriceCents)
    }
  }

  predicate AllInRange(lines: seq<Priced>) {
    forall p :: p in lines ==> p.InRange()
  }

  /** An in-range line never meets the clamp: it is the exact product, rounded. */
  lemma {:induction false} LineAmountExact(p: Priced)
    requires p.InRange()
    ensures RoundedHalfAway(p.quantityHundredths * p.unitPriceCents, 100, p.Amount())
    ensures 0 <= p.Amount() <= MAX_LINE_CENTS
  {
    var q, u := p.quantityHundredths, p.unitPriceCents;
    assert 0 <= q * u <= MAX_QUANTITY_HUNDREDTHS * MAX_UNIT_PRICE_CENTS by {
      MulMonotone(u, q, MAX_QUANTITY_HUNDREDTHS);
      MulMonotone(MAX_QUANTITY_HUNDREDTHS, u, MAX_UNIT_PRICE_CENTS);
      MulMonotone(q, 0, u);
    }
  }

  /** Of any quantity and price the amount is the rounded product, held at the ends of `i64`. */
  lemma {:induction false} LineAmountSaturates(q: int, u: int, r: int)
    requires RoundedHalfAway(q * u, 100, r)
    ensures FitsI64(r) ==> LineAmountCents(q, u) == r
    ensures r > I64_MAX ==> LineAmountCents(q, u) == I64_MAX
    ensures r < I64_MIN ==> LineAmountCents(q, u) == I64_MIN
  {
    RoundedHalfAwayUnique(q * u, 100, r);
  }

  /** For prices and quantities that are not negative, of any size, a larger quantity or a
      larger price never lowers a line. */
  lemma {:induction false} LineAmountMonotone(q: int, q': int, u: int, u': int)
    requires q <= q' && 0 <= u <= u' && 0 <= q'
    ensures LineAmountCents(q, u) <= LineAmountCents(q', u')
  {
    MulMonotone(u, q, q');
    MulMonotone(q', u, u');
    DivRoundMonotone(q * u, q' * u', 100);
  }

  function SumCents(lines: seq<Priced>): int {
    if lines == [] then 0
    else SumCents(lines[..|lines| - 1]) + lines[|lines| - 1].Amount()
  }

  /** The sum before rounding, in hundredths of a cent. */
  function ExactSum(lines: seq<Priced>): int {
    if lines == [] then 0
    else
      var p := lines[|lines| - 1];
      ExactSum(lines[..|lines| - 1]) + p.quantityHundredths * p.unitPriceCents
  }

  /** The running `i64` sum; `None` when an addition along the way leaves the type. */
  function CheckedSum(lines: seq<Priced>): Option<int> {
    if lines == [] then Some(0)
    else
      match CheckedSum(lines[..|lines| - 1])
      case None => None
      case Some(s) =>
        var s' := s + lines[|lines| - 1].Amount();
        if FitsI64(s') then Some(s') else None
  }

  /** The running sum is the sum, and fails exactly when some first part of it does not fit. */
  lemma {:induction false} CheckedSumIff(lines: seq<Priced>)
    ensures CheckedSum(lines).Some? <==> forall n :: 0 <= n <= |lines| ==> FitsI64(SumCents(lines[..n]))
    ensures CheckedSum(lines).Some? ==> CheckedSum(lines).value == SumCents(lines)
  {
    assert lines[..|lines|] == lines;
    if lines != [] {
      var front := lines[..|lines| - 1];
      CheckedSumIff(front);
      assert forall n :: 0 <= n <= |front| ==> front[..n] == lines[..n];
    }
  }

  function TotalCents(lines: seq<Priced>, gstRegistered: bool): int {
    var subtotal := SumCents(lines);
    subtotal + if gstRegistered then GstCents(subtotal) else 0
  }

  lemma {:induction false} SumBounds(lines: seq<Priced>)
    requires AllInRange(lines)
    ensures 0 <= SumCents(lines) <= |lines| * MAX_LINE_CENTS
    ensures -50 * |lines| <= 100 * SumCents(lines) - ExactSum(lines) <= 50 * |lines|
  {
    if lines != [] {
      var p := lines[|lines| - 1];
      SumBounds(lines[..|lines| - 1]);
      LineAmountExact(p);
    }
  }

  /** No invoice the item cap admits can overflow: every partial sum, the GST and the
      total stay inside `i64`, and the rounded sum is within half a cent a line. */
  lemma {:induction false} WholeInvoiceFits(lines: seq<Priced>, gstRegistered: bool)
    requires AllInRange(lines) && |lines| <= MAX_INVOICE_ITEMS
    ensures CheckedSum(lines) == Some(SumCents(lines))
    ensures FitsI64(TotalCents(lines, gstRegistered))
    ensures RoundedHalfAway(SumCents(lines), 10, GstCents(SumCents(lines)))
    ensures -50 * |lines| <= 100 * SumCents(lines) - ExactSum(lines) <= 50 * |lines|
  {
    SumBounds(lines);
    if lines != [] {
      WholeInvoiceFits(lines[..|lines| - 1], gstRegistered);
    }
  }

  predicate TotalIsSafe(totalCents: int) {
    totalCents <= MAX_SAFE_TOTAL_CENTS
  }

  /** Which line counts can ever be refused for their total: with GST none of up to eight
      lines, without it none of up to nine. */
  lemma {:induction false} SmallInvoicesAreSafe(lines: seq<Priced>, gstRegistered: bool)
    requires AllInRange(lines)
    requires |lines| <= if gstRegistered then 8 else 9
    ensures TotalIsSafe(TotalCents(lines, gstRegistered))
  {
    SumBounds(lines);
  }

  /** The bounds of `SmallInvoicesAreSafe` are exact: one more maximal line is refused. */
  lemma {:induction false} MaximalInvoiceTotal(n: nat, gstRegistered: bool)
    requires n <= MAX_INVOICE_ITEMS
    ensures var lines := seq(n, i => Priced(MAX_QUANTITY_HUNDREDTHS, MAX_UNIT_PRICE_CENTS));
            && AllInRange(lines)
            && (TotalIsSafe(TotalCents(lines, gstRegistered)) <==> n <= if gstRegistered then 8 else 9)
  {
    var p := Priced(MAX_QUANTITY_HUNDREDTHS, MAX_UNIT_PRICE_CENTS);
    assert p.Amount() == MAX_LINE_CENTS;
    MaximalSum(n);
  }

  lemma {:induction false} MaximalSum(n: nat)
    ensures SumCents(seq(n, i => Priced(MAX_QUANTITY_HUNDREDTHS, MAX_UNIT_PRICE_CENTS))) == n * MAX_LINE_CENTS
  {
    if n > 0 {
      var lines := seq(n, i => Priced(MAX_QUANTITY_HUNDREDTHS, MAX_UNIT_PRICE_CENTS));
      MaximalSum(n - 1);
      assert lines[..n - 1] == seq(n - 1, i => Priced(MAX_QUANTITY_HUNDREDTHS, MAX_UNIT_PRICE_CENTS));
    }
  }

  /** Dropping a line drops its amount. */
  lemma {:induction false} SumRemove(b: seq<Priced>, j: nat)
    requires j < |b|
    ensures SumCents(b) == SumCents(b[..j] + b[j + 1..]) + b[j].Amount()
  {
    var last := |b| - 1;
    var b' := b[..j] + b[j + 1..];
    if j == last {
      assert b' == b[..last];
    } else {
      SumRemove(b[..last], j);
      assert b[..last][..j] + b[..last][j + 1..] == b'[..|b'| - 1];
    }
  }
}
