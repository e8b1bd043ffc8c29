/** Quantities and amounts as text (api/src/invoicing/money.rs): what `parse_quantity`
    accepts, what `format_quantity` and `format_cents` print. */
module MoneyText {
  import opened Prelude
  import opened Money

  datatype QuantityError = Required | NotPositive | Malformed | TooManyDecimals | TooLarge
  datatype Parsed = Ok(hundredths: int) | Err(error: QuantityError)

  function StripZeros(s: string): (r: string)
    ensures AllDigits(s) ==> AllDigits(r)
    ensures r != [] ==> r[0] != '0'
  {
    if s != [] && s[0] == '0' then StripZeros(s[1..]) else s
  }

  function ParseQuantity(raw: string): Parsed { ParseTrimmed(Trim(raw)) }

  function ParseTrimmed(s: string): Parsed {
    if s == [] then Err(Required)
    else if s[0] == '-' then Err(NotPositive)
    else
      var (whole, frac) := SplitOnce(s, '.').GetOr((s, []));
      if (whole == [] && frac == []) || !AllDigits(whole) || !AllDigits(frac) || s[|s| - 1] == '.' then
        Err(Malformed)
      else if |frac| > 2 then Err(TooManyDecimals)
      else
        var trimmed := StripZeros(whole);
        if |trimmed| > 7 then Err(TooLarge)
        else
          var wholeValue := if trimmed == [] then 0 else Denotes(trimmed);
          var hundredths := wholeValue * 100 + FracHundredths(frac);
          if hundredths <= 0 then Err(NotPositive)
          else if hundredths > MAX_QUANTITY_HUNDREDTHS then Err(TooLarge)
          else Ok(hundredths)
  }

  /** `"5"` after the point is fifty hundredths. */
  function FracHundredths(frac: string): nat
    requires AllDigits(frac)
  {
    if |frac| == 0 then 0
    else if |frac| == 1 then DigitValue(frac[0]) * 10
    else Denotes(frac)
  }

  /** A written quantity: digits, or digits with a point and one or two decimals after it
      (no digit is needed before the point). */
  ghost predicate Writes(s: string, whole: string, frac: string) {
    && AllDigits(whole) && AllDigits(frac)
    && (if frac == [] then whole != [] && s == whole else |frac| <= 2 && s == whole + "." + frac)
  }

  function Hundredths(whole: string, frac: string): int
    requires AllDigits(whole) && AllDigits(frac) && |frac| <= 2
  {
    100 * Denotes(whole) + Pow10(2 - |frac|) * Denotes(frac)
  }

  ghost predicate IsQuantity(s: string, q: int) {
    && 0 < q <= MAX_QUANTITY_HUNDREDTHS
    && exists whole, frac :: Writes(s, whole, frac) && Hundredths(whole, frac) == q
  }

  /** The parser accepts exactly the written quantities between 0.01 and 1,000,000, with
      the value they denote; everything else is an error. */
  lemma {:induction false} ParseQuantityExact(raw: string, q: int)
    ensures ParseQuantity(raw) == Ok(q) <==> IsQuantity(Trim(raw), q)
  {
    var s := Trim(raw);
    if ParseTrimmed(s) == Ok(q) {
      AcceptedIsQuantity(s, q);
    }
    if IsQuantity(s, q) {
      var whole, frac :| Writes(s, whole, frac) && Hundredths(whole, frac) == q;
      WrittenIsAccepted(s, whole, frac, q);
    }
  }

  lemma {:induction false} AcceptedIsQuantity(s: string, q: int)
    requires ParseTrimmed(s) == Ok(q)
    ensures IsQuantity(s, q)
  {
    var (whole, frac) := SplitOnce(s, '.').GetOr((s, []));
    StripZerosDenotes(whole);
    FracValue(frac);
    assert s == if '.' in s then whole + "." + frac else whole;
    assert Writes(s, whole, frac) && Hundredths(whole, frac) == q;
  }

  /** Digits, or digits and a point with any number of digits after it. */
  ghost predicate WritesDigits(s: string, whole: string, frac: string) {
    && AllDigits(whole) && AllDigits(frac)
    && if frac == [] then whole != [] && s == whole else s == whole + "." + frac
  }

  /** Which error a text that is not accepted gets: of a written number it is its size or its
      decimals that is wrong; a minus sign counts as not positive whatever follows; a text
      that writes no number is malformed. */
  lemma {:induction false} ParseErrors(raw: string)
    ensures var s := Trim(raw);
            && (ParseQuantity(raw) == Err(Required) <==> s == "")
            && (s != "" && s[0] == '-' ==> ParseQuantity(raw) == Err(NotPositive))
            && (ParseQuantity(raw) == Err(Malformed) <==>
                  s != "" && s[0] != '-' && !exists whole, frac :: WritesDigits(s, whole, frac))
            && forall whole, frac :: WritesDigits(s, whole, frac) ==>
                 && (|frac| > 2 ==> ParseQuantity(raw) == Err(TooManyDecimals))
                 && (|frac| <= 2 && Hundredths(whole, frac) == 0 ==> ParseQuantity(raw) == Err(NotPositive))
                 && (|frac| <= 2 && Hundredths(whole, frac) > MAX_QUANTITY_HUNDREDTHS ==>
                       ParseQuantity(raw) == Err(TooLarge))
  {
    var s := Trim(raw);
    if s != "" && s[0] != '-' && ParseTrimmed(s) != Err(Malformed) {
      var (whole, frac) := SplitOnce(s, '.').GetOr((s, []));
      assert s == if '.' in s then whole + "." + frac else whole;
      assert WritesDigits(s, whole, frac);
    }
    forall whole, frac | WritesDigits(s, whole, frac)
      ensures s != "" && s[0] != '-' && ParseTrimmed(s) != Err(Malformed)
      ensures |frac| > 2 ==> ParseTrimmed(s) == Err(TooManyDecimals)
      ensures |frac| <= 2 && Hundredths(whole, frac) == 0 ==> ParseTrimmed(s) == Err(NotPositive)
      ensures |frac| <= 2 && Hundredths(whole, frac) > MAX_QUANTITY_HUNDREDTHS ==> ParseTrimmed(s) == Err(TooLarge)
    {
      WrittenError(s, whole, frac);
    }
  }

  lemma {:induction false} WrittenError(s: string, whole: string, frac: string)
    requires WritesDigits(s, whole, frac)
    ensures s != "" && s[0] != '-' && ParseTrimmed(s) != Err(Malformed)
    ensures |frac| > 2 ==> ParseTrimmed(s) == Err(TooManyDecimals)
    ensures |frac| <= 2 && Hundredths(whole, frac) == 0 ==> ParseTrimmed(s) == Err(NotPositive)
    ensures |frac| <= 2 && Hundredths(whole, frac) > MAX_QUANTITY_HUNDREDTHS ==> ParseTrimmed(s) == Err(TooLarge)
  {
    SplitWritten(s, whole, frac);
    if |frac| <= 2 {
      StripZerosDenotes(whole);
      FracValue(frac);
      var trimmed := StripZeros(whole);
      LengthOf(trimmed);
      PowerOfSeven();
      if |trimmed| > 7 {
        Pow10Monotone(7, |trimmed| - 1);
      }
    }
  }

  lemma {:induction false} SplitWritten(s: string, whole: string, frac: string)
    requires WritesDigits(s, whole, frac)
    ensures s != [] && s[0] != '-' && s[|s| - 1] != '.'
    ensures SplitOnce(s, '.').GetOr((s, [])) == (whole, frac)
  {
    assert '.' !in whole by { assert !IsDigit('.'); }
    if frac == [] {
      assert SplitOnce(s, '.') == None;
    } else {
      SplitOnceAt(whole, '.', frac);
      assert s[|s| - 1] == frac[|frac| - 1];
    }
    assert s[0] == if whole == [] then '.' else whole[0];
  }

  lemma {:induction false} WrittenIsAccepted(s: string, whole: string, frac: string, q: int)
    requires Writes(s, whole, frac) && Hundredths(whole, frac) == q
    requires 0 < q <= MAX_QUANTITY_HUNDREDTHS
    ensures ParseTrimmed(s) == Ok(q)
  {
    SplitWritten(s, whole, frac);
    StripZerosDenotes(whole);
    FracValue(frac);
    var trimmed := StripZeros(whole);
    LengthOf(trimmed);
    PowerOfSeven();
    if |trimmed| > 7 {
      Pow10Monotone(7, |trimmed| - 1);
    }
  }

  lemma {:induction false} PowerOfSeven()
    ensures Pow10(7) == 10_000_000
  {
    assert Pow10(2) == 100 by { assert Pow10(1) == 10; }
    assert Pow10(4) == 10_000 by { assert Pow10(3) == 1000; }
    assert Pow10(6) == 1_000_000 by { assert Pow10(5) == 100_000; }
  }

  lemma {:induction false} StripZerosDenotes(s: string)
    requires AllDigits(s)
    ensures AllDigits(StripZeros(s)) && Denotes(StripZeros(s)) == Denotes(s)
  {
    if s != [] && s[0] == '0' {
      StripZerosDenotes(s[1..]);
      DenotesConcat(s[..1], s[1..]);
      assert s == s[..1] + s[1..];
      assert Denotes(s[..1]) == 0 by { assert s[..1][..0] == []; }
    }
  }

  lemma {:induction false} FracValue(frac: string)
    requires AllDigits(frac) && |frac| <= 2
    ensures FracHundredths(frac) == Pow10(2 - |frac|) * Denotes(frac) < 100
    ensures |frac| == 2 ==> Pow10(|frac|) == 100 && Pow10(2 - |frac|) == 1
  {
    assert Pow10(1) == 10 && Pow10(2) == 100;
    DenotesBound(frac);
    if |frac| == 1 {
      assert frac[..0] == [];
    }
  }

  /** Without a leading zero, the number of digits measures the value. */
  lemma {:induction false} LengthOf(s: string)
    requires AllDigits(s)
    requires s != [] ==> s[0] != '0'
    ensures s != [] ==> Pow10(|s| - 1) <= Denotes(s) < Pow10(|s|)
  {
    DenotesBound(s);
    if |s| == 1 {
      assert s[..0] == [];
    } else if |s| > 1 {
      LengthOf(s[..|s| - 1]);
    }
  }

  lemma {:induction false} Pow10Monotone(a: nat, b: nat)
    requires a <= b
    ensures Pow10(a) <= Pow10(b)
  {
    if a < b {
      Pow10Monotone(a, b - 1);
    }
  }

  function TwoDigits(n: nat): (s: string)
    requires n < 100
    ensures |s| == 2 && AllDigits(s) && Denotes(s) == n
  {
    var s := [DigitOf(n / 10), DigitOf(n % 10)];
    assert s[..1][..0] == [] && Denotes(s[..1]) == n / 10;
    s
  }

  function Sign(n: int): string { if n < 0 then "-" else "" }

  function Abs(n: int): nat { if n < 0 then -n else n }

  function FormatQuantity(hundredths: int): string {
    var abs := Abs(hundredths);
    var whole := Sign(hundredths) + Decimal(abs / 100);
    var frac := abs % 100;
    if frac == 0 then whole
    else if frac % 10 == 0 then whole + "." + Decimal(frac / 10)
    else whole + "." + TwoDigits(frac)
  }

  /** What is printed: the shortest whole part, and after a point no more decimals than needed; a
      negative quantity behind a sign. */
  lemma {:induction false} FormatQuantityShape(h: int) returns (whole: string, frac: string)
    requires h >= 0
    ensures Writes(FormatQuantity(h), whole, frac) && Hundredths(whole, frac) == h
    ensures whole != "" && (whole[0] == '0' ==> whole == "0") && (frac != "" ==> frac[|frac| - 1] != '0')
    ensures h > 0 ==> FormatQuantity(-h) == "-" + FormatQuantity(h)
  {
    whole, frac := Decimal(h / 100), PrintedFrac(h);
    ShortestZero(h / 100);
    PrintedForm(h);
    if h > 0 {
      SignInFront(h);
    }
  }

  lemma {:induction false} ShortestZero(n: nat)
    ensures Decimal(n)[0] == '0' ==> Decimal(n) == "0"
  {
    assert |Decimal(0)| == 1;
  }

  lemma {:induction false} SignInFront(h: int)
    requires h > 0
    ensures FormatQuantity(-h) == "-" + FormatQuantity(h)
  {
    var whole, frac := Decimal(h / 100), h % 100;
    assert Abs(-h) == Abs(h) == h && Sign(-h) == "-" && Sign(h) == "";
    assert "" + whole == whole;
    if frac != 0 {
      var tail := if frac % 10 == 0 then Decimal(frac / 10) else TwoDigits(frac);
      Regroup("-", whole, ".");
      Regroup("-", whole + ".", tail);
    }
  }

  /** Printing then parsing gives every storable quantity back. */
  lemma {:induction false} FormatThenParse(h: int)
    requires 0 < h <= MAX_QUANTITY_HUNDREDTHS
    ensures ParseQuantity(FormatQuantity(h)) == Ok(h)
  {
    var s := FormatQuantity(h);
    PrintedForm(h);
    SplitWritten(s, Decimal(h / 100), PrintedFrac(h));
    EndsAreDigits(s, Decimal(h / 100), PrintedFrac(h));
    TrimOfTrimmed(s);
    WrittenIsAccepted(s, Decimal(h / 100), PrintedFrac(h), h);
  }

  lemma {:induction false} PrintedForm(h: nat)
    ensures Writes(FormatQuantity(h), Decimal(h / 100), PrintedFrac(h))
    ensures Hundredths(Decimal(h / 100), PrintedFrac(h)) == h
  {
    assert h == 100 * (h / 100) + h % 100;
    PrintedText(h);
  }

  lemma {:induction false} PrintedText(h: nat)
    ensures FormatQuantity(h) == Decimal(h / 100) + if PrintedFrac(h) == [] then [] else "." + PrintedFrac(h)
  {
    var whole, frac := Decimal(h / 100), PrintedFrac(h);
    assert Sign(h) + whole == whole && Abs(h) == h;
    assert frac == [] <==> h % 100 == 0;
    Regroup(whole, ".", frac);
  }

  lemma {:induction false} EndsAreDigits(s: string, whole: string, frac: string)
    requires Writes(s, whole, frac)
    ensures s != [] && !IsWhitespace(s[0]) && !IsWhitespace(s[|s| - 1])
  {
    assert s[0] == if whole == [] then '.' else whole[0];
    assert s[|s| - 1] == if frac == [] then whole[|whole| - 1] else frac[|frac| - 1];
  }

  function PrintedFrac(h: nat): (s: string)
    ensures AllDigits(s) && |s| == if h % 100 == 0 then 0 else if h % 10 == 0 then 1 else 2
    ensures Pow10(2 - |s|) * Denotes(s) == h % 100
    ensures |s| > 0 ==> s[|s| - 1] != '0'
  {
    var frac := h % 100;
    assert frac % 10 == h % 10;
    assert Pow10(1) == 10 && Pow10(0) == 1;
    if frac == 0 then []
    else if frac % 10 == 0 then
      var s := Decimal(frac / 10);
      assert s == [DigitOf(frac / 10)];
      s
    else TwoDigits(frac)
  }

  /** Of all texts that parse to `h`, the printed one is a shortest exactly from 1.00 on:
      below that the leading zero it prints can be dropped (".5" for "0.5"). */
  lemma {:induction false} FormatShortest(h: int)
    requires 0 < h <= MAX_QUANTITY_HUNDREDTHS
    ensures (forall raw :: ParseQuantity(raw) == Ok(h) ==> |FormatQuantity(h)| <= |raw|) <==> h >= 100
  {
    FormatThenParse(h);
    if h >= 100 {
      forall raw | ParseQuantity(raw) == Ok(h)
        ensures |FormatQuantity(h)| <= |raw|
      {
        NotShorter(h, raw);
      }
    } else {
      var raw := ShorterForm(h);
    }
  }

  lemma {:induction false} ShorterForm(h: int) returns (raw: string)
    requires 0 < h < 100
    ensures ParseQuantity(raw) == Ok(h) && |raw| < |FormatQuantity(h)|
  {
    var frac := PrintedFrac(h);
    raw := [] + "." + frac;
    assert Hundredths([], frac) == h;
    EndsAreDigits(raw, [], frac);
    TrimOfTrimmed(raw);
    WrittenIsAccepted(raw, [], frac, h);
    PrintedForm(h);
  }

  lemma {:induction false} NotShorter(h: int, raw: string)
    requires 100 <= h <= MAX_QUANTITY_HUNDREDTHS && ParseQuantity(raw) == Ok(h)
    ensures |FormatQuantity(h)| <= |raw|
  {
    var s := Trim(raw);
    TrimSpec(raw);
    AcceptedIsQuantity(s, h);
    var whole, frac :| Writes(s, whole, frac) && Hundredths(whole, frac) == h;
    PrintedForm(h);
    FracShortest(h, whole, frac);
    ShortestDigits(Decimal(h / 100), whole);
  }

  lemma {:induction false} ShortestDigits(d: string, other: string)
    requires AllDigits(d) && AllDigits(other) && Denotes(d) == Denotes(other)
    requires d != [] && d[0] != '0'
    ensures |d| <= |other|
  {
    var k := |d| - 1;
    DenotesBound(other);
    LengthOf(d);
    if |other| <= k {
      Pow10Monotone(|other|, k);
    }
  }

  lemma {:induction false} FracShortest(h: int, whole: string, frac: string)
    requires h >= 0 && AllDigits(whole) && AllDigits(frac) && |frac| <= 2 && Hundredths(whole, frac) == h
    ensures Denotes(whole) == h / 100 && |PrintedFrac(h)| <= |frac|
  {
    FracValue(frac);
    var f := FracHundredths(frac);
    assert h == 100 * Denotes(whole) + f && f == h % 100;
    if |frac| == 1 {
      assert f % 10 == 0;
    }
  }

  // ---------------------------------------------------------------- cents

  /** The loop of `format_cents`, one character at a time from the left. */
  method GroupThousands(whole: string) returns (grouped: string)
    requires AllDigits(whole)
    ensures grouped == Grouped(whole)
  {
    grouped := [];
    for i := 0 to |whole|
      invariant grouped == GroupedPrefix(whole, i)
    {
      if i > 0 && (|whole| - i) % 3 == 0 {
        grouped := grouped + ",";
      }
      grouped := grouped + [whole[i]];
    }
    PrefixIsGrouped(whole);
  }

  function GroupedPrefix(whole: string, i: nat): string
    requires i <= |whole|
  {
    if i == 0 then []
    else GroupedPrefix(whole, i - 1) + Separator(|whole|, i - 1) + [whole[i - 1]]
  }

  /** What goes before digit `i` of `n`. */
  function Separator(n: nat, i: nat): string
    requires i <= n
  {
    if i > 0 && (n - i) % 3 == 0 then "," else ""
  }

  /** Groups of three, counted from the right. */
  function Grouped(digits: string): string {
    if |digits| <= 3 then digits
    else Grouped(digits[..|digits| - 3]) + "," + digits[|digits| - 3..]
  }

  lemma {:induction false} PrefixIsGrouped(whole: string)
    ensures GroupedPrefix(whole, |whole|) == Grouped(whole)
  {
    var n := |whole|;
    if n <= 3 {
      ShortPrefix(whole, n);
      assert whole[..n] == whole;
    } else {
      var front, g := whole[..n - 3], GroupedPrefix(whole, n - 3);
      PrefixIsGrouped(front);
      PrefixAgrees(whole, n - 3);
      assert g == Grouped(front) by { assert |front| == n - 3; }
      LastThree(whole);
      assert Grouped(whole) == Grouped(front) + "," + whole[n - 3..];
    }
  }

  lemma {:induction false} LastThree(whole: string)
    requires |whole| > 3
    ensures GroupedPrefix(whole, |whole|) == GroupedPrefix(whole, |whole| - 3) + "," + whole[|whole| - 3..]
  {
    var n := |whole|;
    var g := GroupedPrefix(whole, n - 3);
    assert Separator(n, n - 3) == "," && Separator(n, n - 2) == Separator(n, n - 1) == "";
    var a, b, c := whole[n - 3], whole[n - 2], whole[n - 1];
    assert GroupedPrefix(whole, n - 2) == g + "," + [a];
    assert GroupedPrefix(whole, n - 1) == g + "," + [a, b];
    assert GroupedPrefix(whole, n) == g + "," + [a, b, c];
    assert whole[n - 3..] == [a, b, c];
  }

  lemma {:induction false} ShortPrefix(whole: string, i: nat)
    requires i <= |whole| <= 3
    ensures GroupedPrefix(whole, i) == whole[..i]
  {
    if i > 0 {
      ShortPrefix(whole, i - 1);
      assert Separator(|whole|, i - 1) == "";
      assert whole[..i] == whole[..i - 1] + [whole[i - 1]];
    }
  }

  lemma {:induction false} PrefixAgrees(whole: string, i: nat)
    requires |whole| > 3 && i <= |whole| - 3
    ensures GroupedPrefix(whole, i) == GroupedPrefix(whole[..|whole| - 3], i)
  {
    if i > 0 {
      PrefixAgrees(whole, i - 1);
      assert (|whole| - (i - 1)) % 3 == (|whole| - 3 - (i - 1)) % 3;
    }
  }

  /** A first group of one to three digits, then groups of exactly three. */
  predicate IsGrouped(s: string) {
    if |s| <= 3 then s != [] && AllDigits(s)
    else s[|s| - 4] == ',' && AllDigits(s[|s| - 3..]) && IsGrouped(s[..|s| - 4])
  }

  function Without(s: string, c: char): string {
    if s == [] then []
    else Without(s[..|s| - 1], c) + if s[|s| - 1] == c then [] else [s[|s| - 1]]
  }

  lemma {:induction false} WithoutConcat(a: string, b: string, c: char)
    ensures Without(a + b, c) == Without(a, c) + Without(b, c)
  {
    if b == [] {
      assert a + b == a;
    } else {
      WithoutConcat(a, b[..|b| - 1], c);
      assert (a + b)[..|a + b| - 1] == a + b[..|b| - 1];
    }
  }

  lemma {:induction false} WithoutAbsent(s: string, c: char)
    requires c !in s
    ensures Without(s, c) == s
  {
    if s != [] {
      WithoutAbsent(s[..|s| - 1], c);
    }
  }

  /** The grouping is well formed and loses no digit. */
  lemma {:induction false} GroupedSpec(digits: string)
    requires digits != [] && AllDigits(digits)
    ensures IsGrouped(Grouped(digits))
    ensures Without(Grouped(digits), ',') == digits
    ensures '.' !in Grouped(digits) && '-' !in Grouped(digits)
  {
    var n := |digits|;
    if n <= 3 {
      WithoutAbsent(digits, ',');
    } else {
      var front, back := digits[..n - 3], digits[n - 3..];
      assert digits == front + back && front != [];
      GroupedSpec(front);
      AddGroup(Grouped(front), back);
      NoMarks(Grouped(front), back);
    }
  }

  lemma {:induction false} NoMarks(g: string, back: string)
    requires '.' !in g && '-' !in g && AllDigits(back)
    ensures '.' !in g + "," + back && '-' !in g + "," + back
  {}

  lemma {:induction false} AddGroup(g: string, back: string)
    requires IsGrouped(g) && |back| == 3 && AllDigits(back)
    ensures IsGrouped(g + "," + back)
    ensures Without(g + "," + back, ',') == Without(g, ',') + back
  {
    var s := g + "," + back;
    assert s[|s| - 3..] == back && s[..|s| - 4] == g;
    DropJoint(g, ',', back);
  }

  /** Dropping the joining character of two texts, the second free of it. */
  lemma {:induction false} DropJoint(a: string, c: char, b: string)
    requires c !in b
    ensures Without(a + [c] + b, c) == Without(a, c) + b
  {
    WithoutConcat(a + [c], b, c);
    WithoutAbsent(b, c);
    assert (a + [c])[..|a|] == a;
  }

  /** What is printed in front of the last three characters of an amount: the groups of the
      whole units, without the sign. */
  function WholePart(s: string): string
    requires |s| >= 3
  {
    var front := s[..|s| - 3];
    if front != [] && front[0] == '-' then front[1..] else front
  }

  /** An optional sign, well-formed groups, one point, exactly two digits: the sign shows a
      negative amount, the groups without their commas are the whole units in shortest form,
      the two digits are the hundredths. */
  method FormatCents(cents: int) returns (s: string)
    requires FitsI64(cents)
    ensures s == CentsText(cents)
    ensures |s| >= 4 && s[|s| - 3] == '.' && '.' !in s[..|s| - 3] && '.' !in s[|s| - 2..]
    ensures s[0] == '-' <==> cents < 0
    ensures IsGrouped(WholePart(s)) && '-' !in WholePart(s)
    ensures var whole := Without(WholePart(s), ',');
            && whole != "" && AllDigits(whole) && (whole[0] == '0' ==> whole == "0")
            && Denotes(whole) == (if cents < 0 then -cents else cents) / 100
    ensures AllDigits(s[|s| - 2..]) && Denotes(s[|s| - 2..]) == (if cents < 0 then -cents else cents) % 100
  {
    var abs := Abs(cents);
    var grouped := GroupThousands(Decimal(abs / 100));
    s := Sign(cents) + grouped + "." + TwoDigits(abs % 100);
    CentsTextParts(cents, s);
  }

  lemma {:induction false} CentsTextParts(cents: int, s: string)
    requires s == CentsText(cents)
    ensures |s| >= 4 && s[|s| - 3] == '.' && '.' !in s[..|s| - 3] && '.' !in s[|s| - 2..]
    ensures s[0] == '-' <==> cents < 0
    ensures WholePart(s) == Grouped(Decimal(Abs(cents) / 100))
    ensures IsGrouped(WholePart(s)) && '-' !in WholePart(s)
    ensures Without(WholePart(s), ',') == Decimal(Abs(cents) / 100)
    ensures Decimal(Abs(cents) / 100)[0] == '0' ==> Decimal(Abs(cents) / 100) == "0"
    ensures s[|s| - 2..] == TwoDigits(Abs(cents) % 100)
  {
    var whole, frac := Decimal(Abs(cents) / 100), TwoDigits(Abs(cents) % 100);
    GroupedSpec(whole);
    PartsOf(Sign(cents), Grouped(whole), frac, s);
  }

  lemma {:induction false} PartsOf(sign: string, groups: string, frac: string, s: string)
    requires (sign == "" || sign == "-") && s == sign + (groups + "." + frac)
    requires groups != "" && '.' !in groups && '-' !in groups && |frac| == 2 && AllDigits(frac)
    ensures |s| >= 4 && s[|s| - 3] == '.' && '.' !in s[..|s| - 3] && '.' !in s[|s| - 2..]
    ensures s[0] == '-' <==> sign == "-"
    ensures WholePart(s) == groups && s[|s| - 2..] == frac
  {
    var front := sign + groups;
    assert s == front + "." + frac;
    assert s[..|s| - 3] == front && s[|s| - 2..] == frac;
    assert sign == "-" ==> front[1..] == groups;
    assert sign == "" ==> front == groups;
  }

  function CentsText(cents: int): string {
    Sign(cents) + CentsBody(Abs(cents))
  }

  /** Read an amount back: the sign, then every digit with commas and the point dropped. */
  function ReadCents(s: string): Option<int> {
    if s != [] && s[0] == '-' then
      match ReadUnsigned(s[1..])
      case None => None
      case Some(n) => Some(-n)
    else ReadUnsigned(s)
  }

  function ReadUnsigned(s: string): Option<int> {
    var digits := Without(Without(s, ','), '.');
    if AllDigits(digits) then Some(Denotes(digits)) else None
  }

  /** The printed amount denotes the input, for every 64-bit input. */
  lemma {:induction false} CentsTextReadsBack(cents: int)
    ensures ReadCents(CentsText(cents)) == Some(cents)
  {
    BodyReadsBack(Abs(cents));
    CentsBodySpec(Abs(cents));
    SignedReadsBack(cents, CentsBody(Abs(cents)));
  }

  lemma {:induction false} SignedReadsBack(cents: int, body: string)
    requires body != [] && body[0] != '-' && ReadUnsigned(body) == Some(Abs(cents))
    ensures ReadCents(Sign(cents) + body) == Some(cents)
  {
    if cents < 0 {
      assert ("-" + body)[1..] == body;
    } else {
      assert "" + body == body;
    }
  }

  lemma {:induction false} BodyReadsBack(abs: nat)
    ensures ReadUnsigned(CentsBody(abs)) == Some(abs)
  {
    CentsBodySpec(abs);
    JoinedValue(abs, Decimal(abs / 100), TwoDigits(abs % 100));
  }

  lemma {:induction false} JoinedValue(abs: nat, whole: string, frac: string)
    requires AllDigits(whole) && Denotes(whole) == abs / 100
    requires AllDigits(frac) && |frac| == 2 && Denotes(frac) == abs % 100
    ensures AllDigits(whole + frac) && Denotes(whole + frac) == abs
  {
    DenotesConcat(whole, frac);
    FracValue(frac);
  }

  function CentsBody(abs: nat): string {
    Grouped(Decimal(abs / 100)) + "." + TwoDigits(abs % 100)
  }

  /** Unsigned amounts: well-formed groups, a point, two digits, and no digit lost. */
  lemma {:induction false} CentsBodySpec(abs: nat)
    ensures IsGrouped(Grouped(Decimal(abs / 100)))
    ensures CentsBody(abs)[0] != '-'
    ensures Without(Without(CentsBody(abs), ','), '.') == Decimal(abs / 100) + TwoDigits(abs % 100)
  {
    var whole := Decimal(abs / 100);
    GroupedSpec(whole);
    GroupsAndPoint(Grouped(whole), whole, TwoDigits(abs % 100));
  }

  lemma {:induction false} GroupsAndPoint(g: string, whole: string, frac: string)
    requires g != [] && Without(g, ',') == whole && '-' !in g
    requires AllDigits(whole) && AllDigits(frac)
    ensures (g + "." + frac)[0] != '-'
    ensures Without(Without(g + "." + frac, ','), '.') == whole + frac
  {
    var tail := "." + frac;
    assert g + "." + frac == g + tail && whole + "." + frac == whole + tail;
    WithoutConcat(g, tail, ',');
    WithoutAbsent(tail, ',');
    DropJoint(whole, '.', frac);
    WithoutAbsent(whole, '.');
  }
}
