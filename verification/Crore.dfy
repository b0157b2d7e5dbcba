// StockDetailPage.tsx: rupee amounts printed in crore, and the chart's reading of that text.
// Amounts are exact reals; texts are character sequences.
module Crore {
  import opened Options
  import opened Text
  import opened Decimal

  const RUPEE := "\U{20B9}"
  const MINUS := "\U{2212}"
  const DASH := "\U{2014}"

  const CRORE := 10000000.0
  const THOUSAND_CRORE := 10000000000.0
  const LAKH_CRORE := 1000000000000.0

  // ---------------------------------------------------------------------------
  // Printing
  // ---------------------------------------------------------------------------

  // The integer nearest to 100x, the larger of two.
  function Hundredths(x: real): (h: nat)
    requires x >= 0.0
    ensures (h as real) - 0.5 <= 100.0 * x < (h as real) + 0.5
  {
    (100.0 * x + 0.5).Floor
  }

  function TwoDigits(k: nat): (s: string)
    requires k < 100
    ensures |s| == 2
  {
    [DIGITS[k / 10], DIGITS[k % 10]]
  }

  function ToFixed2(x: real): string
    requires x >= 0.0
  {
    Dec(Hundredths(x) / 100) + "." + TwoDigits(Hundredths(x) % 100)
  }

  function Abs(n: real): real {
    if n < 0.0 then -n else n
  }

  // `inr` is Intl's currency format, used below one crore.
  function FmtCr(inr: real -> string, amount: Option<real>): string {
    match amount
    case None => DASH
    case Some(n) =>
      var sign := if n < 0.0 then MINUS else "";
      var abs := Abs(n);
      if abs >= LAKH_CRORE then sign + RUPEE + ToFixed2(abs / LAKH_CRORE) + " L Cr"
      else if abs >= THOUSAND_CRORE then sign + RUPEE + ToFixed2(abs / THOUSAND_CRORE) + " K Cr"
      else if abs >= CRORE then sign + RUPEE + ToFixed2(abs / CRORE) + " Cr"
      else inr(n)
  }

  function FmtCrFromMC(inr: real -> string, crores: Option<real>): string {
    match crores
    case None => DASH
    case Some(v) => FmtCr(inr, Some(v * CRORE))
  }

  // ---------------------------------------------------------------------------
  // Reading
  // ---------------------------------------------------------------------------

  predicate Kept(c: char) {
    '0' <= c <= '9' || c == '.' || c == '-'
  }

  function Strip(v: string): string {
    if v == "" then "" else (if Kept(v[0]) then [v[0]] else "") + Strip(v[1..])
  }

  function DigitRun(s: string): (n: nat)
    ensures n <= |s| && AllDigits(s[..n])
    ensures n < |s| ==> !('0' <= s[n] <= '9')
  {
    if s != "" && '0' <= s[0] <= '9' then
      var n := DigitRun(s[1..]);
      assert s[..n + 1] == [s[0]] + s[1..][..n];
      n + 1
    else 0
  }

  function Pow10(k: nat): (p: real)
    ensures p >= 1.0
  {
    if k == 0 then 1.0 else 10.0 * Pow10(k - 1)
  }

  // parseFloat of digits, optionally with a fraction: the longest prefix that is a number.
  function ParseUnsigned(s: string): Option<real> {
    var i := DigitRun(s);
    var f := if i < |s| && s[i] == '.' then DigitRun(s[i + 1..]) else 0;
    if i == 0 && f == 0 then None
    else Some(Digits(s[..i]) as real + if f == 0 then 0.0 else Digits(s[i + 1..][..f]) as real / Pow10(f))
  }

  // parseFloat on what Strip leaves.
  function ParseFloat(s: string): Option<real> {
    if s != "" && s[0] == '-' then
      match ParseUnsigned(s[1..])
      case Some(x) => Some(-x)
      case None => None
    else ParseUnsigned(s)
  }

  // The text has a C and an r after the letter, with nothing but space between.
  predicate HasScale(v: string, letter: char) {
    exists i, j :: 0 <= i < j < |v| - 1 && v[i] == letter && AllSpace(v[i + 1..j]) && v[j] == 'C' && v[j + 1] == 'r'
  }

  // In crore; null and undefined are the empty text here.
  function ParseFinVal(v: string): Option<real> {
    if v == "" || v == DASH then None
    else
      match ParseFloat(Strip(v))
      case None => None
      case Some(num) =>
        if HasScale(v, 'L') then Some(num * 100000.0)
        else if HasScale(v, 'K') then Some(num * 1000.0)
        else Some(num)
  }

  // ---------------------------------------------------------------------------
  // What reading makes of printing
  // ---------------------------------------------------------------------------

  // The unit an amount of at least a crore is printed in, as a number of crores.
  function UnitOf(n: real): real {
    if n >= 1000000000000.0 then 100000.0 else if n >= 10000000000.0 then 1000.0 else 1.0
  }

  function Suffix(n: real): string {
    if n >= LAKH_CRORE then " L Cr" else if n >= THOUSAND_CRORE then " K Cr" else " Cr"
  }

  // The amount in crore, rounded to a hundredth of the unit.
  function Rounded(n: real): real
    requires n >= 0.0
  {
    Hundredths(n / CRORE / UnitOf(n)) as real / 100.0 * UnitOf(n)
  }

  lemma {:induction false} StripJoin(a: string, b: string)
    ensures Strip(a + b) == Strip(a) + Strip(b)
  {
    if a == "" {
      assert a + b == b;
    } else {
      var head := if Kept(a[0]) then [a[0]] else "";
      assert (a + b)[1..] == a[1..] + b;
      assert Strip(a) == head + Strip(a[1..]) && Strip(a + b) == head + Strip(a[1..] + b);
      hide Strip;
      StripJoin(a[1..], b);
    }
  }

  lemma {:induction false} StripKept(a: string)
    requires forall i :: 0 <= i < |a| ==> Kept(a[i])
    ensures Strip(a) == a
  {
    if a != "" {
      StripKept(a[1..]);
    }
  }

  lemma {:induction false} StripOther(a: string)
    requires forall i :: 0 <= i < |a| ==> !Kept(a[i])
    ensures Strip(a) == ""
  {
    if a != "" {
      StripOther(a[1..]);
    }
  }

  lemma {:induction false} DigitRunStops(a: string, b: string)
    requires AllDigits(a) && (b == "" || !('0' <= b[0] <= '9'))
    ensures DigitRun(a + b) == |a|
  {
    if a == "" {
      assert a + b == b;
    } else {
      assert (a + b)[1..] == a[1..] + b;
      DigitRunStops(a[1..], b);
    }
  }

  lemma TwoDigitsRead(k: nat)
    requires k < 100
    ensures AllDigits(TwoDigits(k)) && Digits(TwoDigits(k)) == k
  {
    var s := TwoDigits(k);
    assert s[..1] == [s[0]] && s[..1][..0] == "";
    assert Digits(s[..1]) == k / 10;
  }

  lemma FixedReadsBack(x: real)
    requires x >= 0.0
    ensures ParseFloat(ToFixed2(x)) == Some(Hundredths(x) as real / 100.0)
    ensures forall i :: 0 <= i < |ToFixed2(x)| ==> Kept(ToFixed2(x)[i])
  {
    hide Hundredths, TwoDigits, Dec, Digits, DigitRun;
    var h := Hundredths(x);
    var whole, frac, s := Dec(h / 100), TwoDigits(h % 100), ToFixed2(x);
    TwoDigitsRead(h % 100);
    DigitsOfDec(h / 100);
    DigitRunStops(whole, "." + frac);
    assert s == whole + ("." + frac);
    DigitRunStops(frac, "");
    assert frac + "" == frac;
    assert s[|whole| + 1..] == frac && frac[..2] == frac && s[..|whole|] == whole;
    assert Pow10(2) == 100.0 by { assert Pow10(0) == 1.0; assert Pow10(1) == 10.0; }
  }

  predicate Lacks(v: string, letter: char) {
    forall i :: 0 <= i < |v| ==> v[i] != letter
  }

  lemma ScaleOfSuffix(front: string, n: real)
    requires Lacks(front, 'L') && Lacks(front, 'K')
    ensures HasScale(front + Suffix(n), 'L') <==> n >= LAKH_CRORE
    ensures HasScale(front + Suffix(n), 'K') <==> THOUSAND_CRORE <= n < LAKH_CRORE
  {
    var v := front + Suffix(n);
    var i := |front| + 1;
    if n >= THOUSAND_CRORE {
      assert v[i] == Suffix(n)[1] && v[i + 1] == ' ' && v[i + 2] == 'C' && v[i + 3] == 'r';
      assert AllSpace(v[i + 1..i + 2]);
      assert HasScale(v, Suffix(n)[1]);
    }
    assert forall k :: |front| <= k < |v| ==> v[k] == Suffix(n)[k - |front|];
    assert Lacks(v, 'L') || n >= LAKH_CRORE;
    assert Lacks(v, 'K') || THOUSAND_CRORE <= n < LAKH_CRORE;
  }

  function Printed(n: real): string
    requires n >= CRORE
  {
    ToFixed2(n / CRORE / UnitOf(n))
  }

  lemma FmtIsUnitAndSuffix(inr: real -> string, n: real)
    requires Abs(n) >= CRORE
    ensures FmtCr(inr, Some(n)) == (if n < 0.0 then MINUS else "") + RUPEE + Printed(Abs(n)) + Suffix(Abs(n))
  {
    hide ToFixed2;
    var abs := Abs(n);
    assert abs / CRORE / 100000.0 == abs / LAKH_CRORE;
    assert abs / CRORE / 1000.0 == abs / THOUSAND_CRORE;
    assert abs / CRORE / 1.0 == abs / CRORE;
  }

  // The printed form of an amount of at least a crore: a sign if negative, the rupee sign, and the size in
  // its unit with two decimals, nearest to it.
  lemma PrintedAs(inr: real -> string, n: real) returns (h: nat, frac: string)
    requires Abs(n) >= 10000000.0
    ensures FmtCr(inr, Some(n)) ==
            (if n < 0.0 then "\U{2212}" else "") + "\U{20B9}" + Dec(h / 100) + "." + frac +
            (if Abs(n) >= 1000000000000.0 then " L Cr" else if Abs(n) >= 10000000000.0 then " K Cr" else " Cr")
    ensures |frac| == 2 && AllDigits(frac) && Digits(frac) == h % 100
    ensures var size := Abs(n) / 10000000.0 / UnitOf(Abs(n)); h as real - 0.5 <= 100.0 * size < h as real + 0.5
  {
    hide Hundredths, TwoDigits, Dec, Digits;
    h := Hundredths(Abs(n) / CRORE / UnitOf(Abs(n)));
    frac := TwoDigits(h % 100);
    TwoDigitsRead(h % 100);
    FmtIsUnitAndSuffix(inr, n);
    var sign := if n < 0.0 then MINUS else "";
    assert sign + RUPEE + (Dec(h / 100) + "." + frac) + Suffix(Abs(n)) == sign + RUPEE + Dec(h / 100) + "." + frac + Suffix(Abs(n));
  }

  lemma StripPrinted(sign: string, body: string, n: real)
    requires sign == MINUS || sign == ""
    requires forall i :: 0 <= i < |body| ==> Kept(body[i])
    ensures Strip(sign + RUPEE + body + Suffix(n)) == body
    ensures Lacks(sign + RUPEE + body, 'L') && Lacks(sign + RUPEE + body, 'K')
  {
    hide Strip;
    StripOther(sign + RUPEE);
    StripOther(Suffix(n));
    StripKept(body);
    StripJoin(sign + RUPEE, body);
    StripJoin(sign + RUPEE + body, Suffix(n));
  }

  // Reading back what was printed gives the size of the amount in crore, rounded to a hundredth of the
  // printed unit; the minus sign is not one the reader knows.
  lemma ReadsRoundedSize(inr: real -> string, n: real)
    requires Abs(n) >= CRORE
    ensures ParseFinVal(FmtCr(inr, Some(n))) == Some(Rounded(Abs(n)))
  {
    hide ToFixed2, ParseFloat, Strip, Hundredths, HasScale;
    var sign := if n < 0.0 then MINUS else "";
    var body, v := Printed(Abs(n)), FmtCr(inr, Some(n));
    FmtIsUnitAndSuffix(inr, n);
    FixedReadsBack(Abs(n) / CRORE / UnitOf(Abs(n)));
    StripPrinted(sign, body, Abs(n));
    ScaleOfSuffix(sign + RUPEE + body, Abs(n));
    assert |v| > 1;
  }

  // The rounding error is at most half a hundredth of the unit, so at most half a percent.
  lemma RoundedIsClose(n: real)
    requires n >= CRORE
    ensures -0.005 * UnitOf(n) <= Rounded(n) - n / CRORE <= 0.005 * UnitOf(n)
    ensures UnitOf(n) <= n / CRORE
  {
    var crores, unit := n / CRORE, UnitOf(n);
    var h := Hundredths(crores / unit);
    hide Hundredths;
    assert Rounded(n) == h as real / 100.0 * unit;
  }

  // For every amount of at least a crore in size, reading what was printed is that accurate exactly
  // when the amount is positive.
  lemma AccurateIffPositive(inr: real -> string, n: real)
    requires Abs(n) >= 10000000.0
    ensures var read := ParseFinVal(FmtCr(inr, Some(n)));
            read.Some? && (Abs(read.value - n / 10000000.0) <= 0.005 * UnitOf(Abs(n)) <==> n > 0.0)
  {
    hide ParseFinVal, FmtCr, Rounded;
    ReadsRoundedSize(inr, n);
    RoundedIsClose(Abs(n));
  }

  // The values that arrive in crore survive the trip through rupees and text.
  lemma CroresSurvive(inr: real -> string, v: real)
    requires v >= 1.0
    ensures var read := ParseFinVal(FmtCrFromMC(inr, Some(v))); read.Some? && Abs(read.value - v) <= 0.005 * v
  {
    hide ParseFinVal, FmtCr, Rounded;
    ReadsRoundedSize(inr, v * CRORE);
    RoundedIsClose(v * CRORE);
    assert v * CRORE / CRORE == v;
  }

  lemma HundredthsMonotone(x: real, y: real)
    requires 0.0 <= x <= y
    ensures Hundredths(x) <= Hundredths(y)
  {
  }

  // A larger amount never reads as less, also where the unit changes from Cr to K Cr to L Cr.
  lemma ReadingIsMonotone(m: real, n: real)
    requires CRORE <= m <= n
    ensures Rounded(m) <= Rounded(n)
  {
    var um, un := UnitOf(m), UnitOf(n);
    var hm, hn := Hundredths(m / CRORE / um), Hundredths(n / CRORE / un);
    if um == un {
      HundredthsMonotone(m / CRORE / um, n / CRORE / un);
    } else {
      hide Hundredths;
      assert un == 1000.0 || un == 100000.0;
      assert n / CRORE / un >= 1.0;
      assert hn >= 100;
      assert m / CRORE / um < un / um;
    }
  }

  lemma DisplayedOrder(inr: real -> string, m: real, n: real)
    requires CRORE <= m <= n
    ensures var x, y := ParseFinVal(FmtCr(inr, Some(m))), ParseFinVal(FmtCr(inr, Some(n)));
            x.Some? && y.Some? && x.value <= y.value
  {
    hide ParseFinVal, FmtCr, Rounded;
    ReadsRoundedSize(inr, m);
    ReadsRoundedSize(inr, n);
    ReadingIsMonotone(m, n);
  }

  // No amount is printed as a dash, which reads as no number; an amount below a crore is left to `inr`.
  lemma OtherAmounts(inr: real -> string, n: real)
    ensures ParseFinVal(FmtCr(inr, None)) == None && ParseFinVal(FmtCrFromMC(inr, None)) == None
    ensures Abs(n) < 10000000.0 ==> FmtCr(inr, Some(n)) == inr(n)
  {
  }
}
