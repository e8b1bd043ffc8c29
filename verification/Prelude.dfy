/** Shared building blocks: options, the order of strings, and the few string operations
    that the tags, addresses and tokens are built from. */
module Prelude {

  datatype Option<+T> = None | Some(value: T) {
    function GetOr(default: T): T {
      if Some? then value else default
    }
  }

  /** Primary keys are opaque strings. */
  type Id = string

  predicate Distinct<T(==)>(s: seq<T>) {
    forall i, j :: 0 <= i < j < |s| ==> s[i] != s[j]
  }

  function Elements(s: seq<string>): set<string> { set x | x in s }

  lemma {:induction false} SizeOfElements(s: seq<string>)
    ensures |Elements(s)| <= |s|
    ensures Distinct(s) ==> |Elements(s)| == |s|
  {
    if s == [] {
      assert Elements(s) == {};
    } else {
      var last := |s| - 1;
      SizeOfElements(s[..last]);
      assert Elements(s) == Elements(s[..last]) + {s[last]};
    }
  }

  lemma {:induction false} Regroup<T>(a: seq<T>, b: seq<T>, c: seq<T>)
    ensures (a + b) + c == a + (b + c)
  {}

  // ---------------------------------------------------------------- strings

  /** The split at the first `c`; `None` when `c` does not occur. */
  function SplitOnce(s: string, c: char): (r: Option<(string, string)>)
    ensures r.None? <==> c !in s
    ensures r.Some? ==> s == r.value.0 + [c] + r.value.1 && c !in r.value.0
  {
    if s == [] then None
    else if s[0] == c then Some(([], s[1..]))
    else
      match SplitOnce(s[1..], c)
      case None => None
      case Some((a, b)) => Some(([s[0]] + a, b))
  }

  /** The split at the last `c`; `None` when `c` does not occur. */
  function RSplitOnce(s: string, c: char): (r: Option<(string, string)>)
    ensures r.None? <==> c !in s
    ensures r.Some? ==> s == r.value.0 + [c] + r.value.1 && c !in r.value.1
  {
    if s == [] then None
    else
      var last := |s| - 1;
      if s[last] == c then Some((s[..last], []))
      else
        match RSplitOnce(s[..last], c)
        case None => None
        case Some((a, b)) => Some((a, b + [s[last]]))
  }

  /** A first-occurrence split is determined by the string alone. */
  lemma {:induction false} FirstSplitUnique(a: string, b: string, x: string, y: string, c: char)
    requires c !in a && c !in x
    requires a + [c] + b == x + [c] + y
    ensures a == x && b == y
  {
    var s := a + [c] + b;
    assert s[|a|] == c && s[|x|] == c;
    assert forall i :: 0 <= i < |a| ==> s[i] == a[i] && a[i] != c;
    assert forall i :: 0 <= i < |x| ==> s[i] == x[i] && x[i] != c;
    assert |a| == |x|;
    assert a == s[..|a|] && x == s[..|a|];
    assert b == s[|a| + 1..] && y == s[|a| + 1..];
  }

  /** A last-occurrence split is determined by the string alone. */
  lemma {:induction false} LastSplitUnique(a: string, b: string, x: string, y: string, c: char)
    requires c !in b && c !in y
    requires a + [c] + b == x + [c] + y
    ensures a == x && b == y
  {
    var s := a + [c] + b;
    assert s[|a|] == c && s[|x|] == c;
    assert forall i :: |a| < i < |s| ==> s[i] == b[i - |a| - 1] && s[i] != c;
    assert forall i :: |x| < i < |s| ==> s[i] == y[i - |x| - 1] && s[i] != c;
    assert |a| == |x|;
    assert a == s[..|a|] && x == s[..|a|];
    assert b == s[|a| + 1..] && y == s[|a| + 1..];
  }

  lemma {:induction false} SplitOnceAt(a: string, c: char, b: string)
    requires c !in a
    ensures SplitOnce(a + [c] + b, c) == Some((a, b))
  {
    var s := a + [c] + b;
    assert s[|a|] == c;
    var (x, y) := SplitOnce(s, c).value;
    FirstSplitUnique(a, b, x, y, c);
  }

  lemma {:induction false} RSplitOnceAt(a: string, c: char, b: string)
    requires c !in b
    ensures RSplitOnce(a + [c] + b, c) == Some((a, b))
  {
    var s := a + [c] + b;
    assert s[|a|] == c;
    var (x, y) := RSplitOnce(s, c).value;
    LastSplitUnique(a, b, x, y, c);
  }

  /** ASCII lower case; the model does not fold characters outside ASCII. */
  function LowerChar(c: char): char {
    if 'A' <= c <= 'Z' then c - 'A' + 'a' else c
  }

  function Lower(s: string): (r: string)
    ensures |r| == |s| && forall i :: 0 <= i < |s| ==> r[i] == LowerChar(s[i])
  {
    seq(|s|, i requires 0 <= i < |s| => LowerChar(s[i]))
  }

  lemma {:induction false} LowerConcat(a: string, b: string)
    ensures Lower(a + b) == Lower(a) + Lower(b)
  {}

  lemma {:induction false} LowerTwice(a: string)
    ensures Lower(Lower(a)) == Lower(a)
  {}

  /** Lower-casing neither makes nor removes a character that is not a letter. */
  lemma {:induction false} LowerKeeps(a: string, c: char)
    requires !('A' <= c <= 'Z') && !('a' <= c <= 'z')
    ensures c in Lower(a) <==> c in a
  {
    if c in a {
      var i :| 0 <= i < |a| && a[i] == c;
      assert Lower(a)[i] == c;
    }
    if c in Lower(a) {
      var i :| 0 <= i < |a| && Lower(a)[i] == c;
      assert a[i] == c;
    }
  }

  // ---------------------------------------------------------------- blanks

  /** The characters `str::trim` removes: Unicode's White_Space property. */
  predicate IsWhitespace(c: char) {
    var n := c as int;
    || 0x09 <= n <= 0x0D || n == 0x20 || n == 0x85 || n == 0xA0 || n == 0x1680
    || 0x2000 <= n <= 0x200A || n == 0x2028 || n == 0x2029 || n == 0x202F
    || n == 0x205F || n == 0x3000
  }

  function TrimStart(s: string): string {
    if s != [] && IsWhitespace(s[0]) then TrimStart(s[1..]) else s
  }

  function TrimEnd(s: string): string {
    if s != [] && IsWhitespace(s[|s| - 1]) then TrimEnd(s[..|s| - 1]) else s
  }

  function Trim(s: string): string { TrimEnd(TrimStart(s)) }

  /** Trimming drops only blanks at the two ends, and leaves none there. */
  lemma {:induction false} TrimSpec(s: string)
    ensures exists a, b :: 0 <= a <= b <= |s| && Trim(s) == s[a..b]
                           && (forall i :: 0 <= i < a || b <= i < |s| ==> IsWhitespace(s[i]))
    ensures Trim(s) != [] ==> !IsWhitespace(Trim(s)[0]) && !IsWhitespace(Trim(s)[|Trim(s)| - 1])
  {
    var a := TrimStartSpec(s);
    var n := TrimEndSpec(s[a..]);
    assert s[a..][..n] == s[a..a + n];
    assert forall i :: a + n <= i < |s| ==> s[i] == s[a..][i - a];
  }

  lemma {:induction false} TrimStartSpec(s: string) returns (a: nat)
    ensures a <= |s| && TrimStart(s) == s[a..]
    ensures forall i :: 0 <= i < a ==> IsWhitespace(s[i])
    ensures a < |s| ==> !IsWhitespace(s[a])
  {
    if s != [] && IsWhitespace(s[0]) {
      var b := TrimStartSpec(s[1..]);
      a := b + 1;
      assert forall i :: 1 <= i < a ==> s[i] == s[1..][i - 1];
    } else {
      a := 0;
    }
  }

  lemma {:induction false} TrimEndSpec(s: string) returns (n: nat)
    ensures n <= |s| && TrimEnd(s) == s[..n]
    ensures forall i :: n <= i < |s| ==> IsWhitespace(s[i])
    ensures n > 0 ==> !IsWhitespace(s[n - 1])
  {
    if s != [] && IsWhitespace(s[|s| - 1]) {
      n := TrimEndSpec(s[..|s| - 1]);
    } else {
      n := |s|;
    }
  }

  lemma {:induction false} TrimOfTrimmed(s: string)
    requires s != [] ==> !IsWhitespace(s[0]) && !IsWhitespace(s[|s| - 1])
    ensures Trim(s) == s
  {}

  // ---------------------------------------------------------------- order

  /** Lexicographic order by character code. */
  predicate AtMost(a: string, b: string) {
    if a == [] then true
    else if b == [] then false
    else if a[0] != b[0] then a[0] < b[0]
    else AtMost(a[1..], b[1..])
  }

  /** The two strings part at `k`, where the first has the smaller character. */
  predicate PartsBelow(a: string, b: string, k: nat) {
    k < |a| && k < |b| && a[..k] == b[..k] && a[k] < b[k]
  }

  /** The order is the one of a dictionary: a prefix comes first, else the first character
      that differs decides. */
  lemma {:induction false} AtMostIsLexicographic(a: string, b: string)
    ensures AtMost(a, b) <==> a <= b || exists k: nat :: PartsBelow(a, b, k)
  {
    if a != [] && b != [] && a[0] == b[0] {
      AtMostIsLexicographic(a[1..], b[1..]);
      if k: nat :| PartsBelow(a[1..], b[1..], k) {
        assert a[..k + 1] == [a[0]] + a[1..][..k] && b[..k + 1] == [b[0]] + b[1..][..k];
        assert PartsBelow(a, b, k + 1);
      }
      if k: nat :| PartsBelow(a, b, k) {
        assert a[1..][..k - 1] == a[..k][1..] && b[1..][..k - 1] == b[..k][1..];
        assert PartsBelow(a[1..], b[1..], k - 1);
      }
      assert a <= b <==> a[1..] <= b[1..];
    } else if a != [] && b != [] && a[0] < b[0] {
      assert PartsBelow(a, b, 0);
    }
  }

  lemma {:induction false} AtMostTotal(a: string, b: string)
    ensures AtMost(a, b) || AtMost(b, a)
  {
    if a != [] && b != [] && a[0] == b[0] {
      AtMostTotal(a[1..], b[1..]);
    }
  }

  lemma {:induction false} AtMostAntisymmetric(a: string, b: string)
    requires AtMost(a, b) && AtMost(b, a)
    ensures a == b
  {
    if a != [] && b != [] {
      AtMostAntisymmetric(a[1..], b[1..]);
      assert a == [a[0]] + a[1..] && b == [b[0]] + b[1..];
    }
  }

  lemma {:induction false} AtMostTransitive(a: string, b: string, c: string)
    requires AtMost(a, b) && AtMost(b, c)
    ensures AtMost(a, c)
  {
    if a != [] && b != [] && c != [] && a[0] == b[0] == c[0] {
      AtMostTransitive(a[1..], b[1..], c[1..]);
    }
  }

  // ---------------------------------------------------------------- decimal numbers

  predicate IsDigit(c: char) { '0' <= c <= '9' }

  predicate AllDigits(s: string) { forall i :: 0 <= i < |s| ==> IsDigit(s[i]) }

  function DigitOf(n: nat): (c: char)
    requires n < 10
    ensures IsDigit(c) && DigitValue(c) == n
    ensures c == '0' <==> n == 0
  {
    (n + 48) as char
  }

  function DigitValue(c: char): (n: nat)
    requires IsDigit(c)
    ensures n < 10
  {
    c as int - 48
  }

  /** The number a run of digits denotes. */
  function Denotes(s: string): nat
    requires AllDigits(s)
  {
    if s == [] then 0
    else 10 * Denotes(s[..|s| - 1]) + DigitValue(s[|s| - 1])
  }

  /** The shortest decimal form of a number, as `to_string` prints it. */
  function Decimal(n: nat): (s: string)
    ensures s != [] && AllDigits(s) && Denotes(s) == n
    ensures s[0] == '0' ==> n == 0
  {
    if n < 10 then
      var s := [DigitOf(n)];
      assert s[..0] == [];
      s
    else
      var front := Decimal(n / 10);
      var s := front + [DigitOf(n % 10)];
      assert s[..|s| - 1] == front;
      s
  }

  lemma {:induction false} DenotesConcat(a: string, b: string)
    requires AllDigits(a) && AllDigits(b)
    ensures AllDigits(a + b)
    ensures Denotes(a + b) == Denotes(a) * Pow10(|b|) + Denotes(b)
  {
    if b == [] {
      assert a + b == a;
    } else {
      var b' := b[..|b| - 1];
      var d := DigitValue(b[|b| - 1]);
      assert (a + b)[..|a + b| - 1] == a + b';
      DenotesConcat(a, b');
      calc {
        Denotes(a + b);
        10 * Denotes(a + b') + d;
        10 * (Denotes(a) * Pow10(|b'|) + Denotes(b')) + d;
        { TimesTen(Denotes(a), Pow10(|b'|)); }
        Denotes(a) * Pow10(|b|) + (10 * Denotes(b') + d);
      }
    }
  }

  lemma {:induction false} TimesTen(x: nat, y: nat)
    ensures 10 * (x * y) == x * (10 * y)
  {}

  function Pow10(n: nat): (p: nat)
    ensures p >= 1
  {
    if n == 0 then 1 else 10 * Pow10(n - 1)
  }

  lemma {:induction false} DenotesBound(s: string)
    requires AllDigits(s)
    ensures Denotes(s) < Pow10(|s|)
  {
    if s != [] {
      DenotesBound(s[..|s| - 1]);
    }
  }
}
