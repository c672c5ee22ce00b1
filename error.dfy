/**
 * The error type of the matrix (src/error.rs): one variant, `Exceed`, with two
 * unsigned coordinates, displayed through the template
 * `out of bounds, got index `({0}, {1})``.
 */
module Error {

  /** `BoundError::Exceed(usize, usize)`; any pair of naturals is a value. */
  datatype BoundError = Exceed(x: nat, y: nat)

  /** The fixed pieces of the display template around the two coordinates. */
  const Prefix: string := "out of bounds, got index `("
  const Separator: string := ", "
  const Suffix: string := ")`"

  predicate IsDigit(c: char) {
    '0' <= c <= '9'
  }

  predicate AllDigits(s: string) {
    forall i :: 0 <= i < |s| ==> IsDigit(s[i])
  }

  function DigitChar(d: nat): (c: char)
    requires d < 10
    ensures IsDigit(c) && c as int - '0' as int == d
  {
    (d + '0' as int) as char
  }

  /** The value a string of decimal digits denotes (most significant digit first). */
  function DecimalValue(s: string): nat
    requires AllDigits(s)
  {
    if s == [] then 0 else 10 * DecimalValue(s[..|s| - 1]) + (s[|s| - 1] as int - '0' as int)
  }

  /** How `{}` renders a `usize`: its decimal digits, without leading zeros. */
  function Decimal(n: nat): (s: string)
    ensures |s| >= 1 && AllDigits(s)
    ensures s[0] == '0' ==> n == 0
    ensures |s| > 1 ==> s[0] != '0'
  {
    if n < 10 then [DigitChar(n)] else Decimal(n / 10) + [DigitChar(n % 10)]
  }

  /** Reading the rendered digits back gives the number: the rendering loses nothing. */
  lemma {:induction false} DecimalRoundTrip(n: nat)
    ensures DecimalValue(Decimal(n)) == n
  {
    if n >= 10 {
      var s := Decimal(n);
      assert s == Decimal(n / 10) + [DigitChar(n % 10)];
      assert s[..|s| - 1] == Decimal(n / 10);
      DecimalRoundTrip(n / 10);
    }
  }

  /** The display text of a bound error (src/error.rs, the `#[error(...)]` template). */
  function Message(e: BoundError): (s: string)
    ensures |s| >= |Prefix| + |Suffix|
    ensures s[..|Prefix|] == Prefix && s[|s| - |Suffix|..] == Suffix
  {
    Prefix + (Decimal(e.x) + (Separator + (Decimal(e.y) + Suffix)))
  }

  /** The length of the run of digits a string starts with. */
  function DigitRun(s: string): (k: nat)
    ensures k <= |s|
  {
    if s == [] || !IsDigit(s[0]) then 0 else 1 + DigitRun(s[1..])
  }

  lemma {:induction false} DigitRunOf(a: string, t: string)
    requires AllDigits(a) && |t| > 0 && !IsDigit(t[0])
    ensures DigitRun(a + t) == |a|
  {
    if a == [] {
      assert a + t == t;
    } else {
      assert (a + t)[1..] == a[1..] + t;
      DigitRunOf(a[1..], t);
    }
  }

  /** Two digit strings each followed by a non-digit can only be glued together one way. */
  lemma DigitsThenNonDigit(a: string, t: string, b: string, u: string)
    requires AllDigits(a) && |t| > 0 && !IsDigit(t[0])
    requires AllDigits(b) && |u| > 0 && !IsDigit(u[0])
    requires a + t == b + u
    ensures a == b && t == u
  {
    DigitRunOf(a, t);
    DigitRunOf(b, u);
    assert a == (a + t)[..|a|];
    assert b == (b + u)[..|b|];
    assert t == (a + t)[|a|..];
    assert u == (b + u)[|b|..];
  }

  /** Equal strings with a common start are equal after it. */
  lemma CancelStart(p: string, a: string, b: string)
    requires p + a == p + b
    ensures a == b
  {
    assert a == (p + a)[|p|..];
    assert b == (p + b)[|p|..];
  }

  /** The message names both coordinates recoverably: different errors never display alike. */
  lemma MessageInjective(e1: BoundError, e2: BoundError)
    requires Message(e1) == Message(e2)
    ensures e1 == e2
  {
    var y1, y2 := Decimal(e1.y) + Suffix, Decimal(e2.y) + Suffix;
    var r1, r2 := Separator + y1, Separator + y2;
    CancelStart(Prefix, Decimal(e1.x) + r1, Decimal(e2.x) + r2);
    assert r1[0] == ',' && r2[0] == ',';
    DigitsThenNonDigit(Decimal(e1.x), r1, Decimal(e2.x), r2);
    CancelStart(Separator, y1, y2);
    assert Suffix[0] == ')';
    DigitsThenNonDigit(Decimal(e1.y), Suffix, Decimal(e2.y), Suffix);
    DecimalRoundTrip(e1.x);
    DecimalRoundTrip(e2.x);
    DecimalRoundTrip(e1.y);
    DecimalRoundTrip(e2.y);
  }

  /** The decimal digits of `n` followed by a non-digit read back as `n`, then the rest. */
  lemma PeelDecimal(n: nat, t: string)
    requires |t| > 0 && !IsDigit(t[0])
    ensures var s := Decimal(n) + t;
            var k := DigitRun(s);
            k == |Decimal(n)| && s[..k] == Decimal(n) && s[k..] == t &&
            DecimalValue(s[..k]) == n
  {
    var d := Decimal(n);
    DigitRunOf(d, t);
    assert (d + t)[..|d|] == d;
    assert (d + t)[|d|..] == t;
    DecimalRoundTrip(n);
  }

  /**
   * Reading the message after its prefix: first the digits of `x`, then
   * `", "`, then the digits of `y`, then the suffix and nothing else.
   */
  lemma MessageDecodes(e: BoundError)
    ensures var body := Message(e)[|Prefix|..];
            var k := DigitRun(body);
            body[..k] == Decimal(e.x) && AllDigits(body[..k]) && DecimalValue(body[..k]) == e.x &&
            k + |Separator| <= |body| && body[k..k + |Separator|] == Separator &&
            var rest := body[k + |Separator|..];
            var m := DigitRun(rest);
            rest[..m] == Decimal(e.y) && AllDigits(rest[..m]) && DecimalValue(rest[..m]) == e.y &&
            rest[m..] == Suffix
  {
    var tail := Decimal(e.y) + Suffix;
    var r := Separator + tail;
    var body := Message(e)[|Prefix|..];
    assert body == Decimal(e.x) + r;
    assert r[0] == ',';
    PeelDecimal(e.x, r);
    var k := DigitRun(body);
    assert body[k..] == r;
    assert body[k..k + |Separator|] == r[..|Separator|] == Separator;
    assert body[k + |Separator|..] == r[|Separator|..] == tail;
    assert Suffix[0] == ')';
    PeelDecimal(e.y, Suffix);
  }

  /** The display text of the out-of-bounds error that the 1x1 test provokes. */
  lemma MessageOfExceed100()
    ensures Message(Exceed(100, 100)) == "out of bounds, got index `(100, 100)`"
  {
  }

  /** With distinct coordinates: `x` is written first, then `y`. */
  lemma MessageOfExceed3And45()
    ensures Message(Exceed(3, 45)) == "out of bounds, got index `(3, 45)`"
  {
  }
}
