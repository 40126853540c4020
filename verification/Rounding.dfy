/** Rounding to the nearest integer, ties to even: what `Decimal.quantize` does
    by default, and the only rounding the consensus engine applies to a score. */
module Rounding {

  function HalfEven(x: real): (n: int)
    ensures n as real - 0.5 <= x <= n as real + 0.5
    ensures x == n as real + 0.5 || x == n as real - 0.5 ==> n % 2 == 0
  {
    var f := x.Floor;
    var d := x - f as real;
    if d < 0.5 then f
    else if d > 0.5 then f + 1
    else if f % 2 == 0 then f else f + 1
  }

  /** The two ensures of HalfEven determine its result. */
  lemma HalfEvenUnique(x: real, n: int)
    requires n as real - 0.5 <= x <= n as real + 0.5
    requires x == n as real + 0.5 || x == n as real - 0.5 ==> n % 2 == 0
    ensures HalfEven(x) == n
  {
  }

  lemma HalfEvenMonotone(x: real, y: real)
    requires x <= y
    ensures HalfEven(x) <= HalfEven(y)
  {
  }

  /** More than one unit apart is always told apart; exactly one unit is not
      enough, since 1.5 and 2.5 both round to 2. */
  lemma HalfEvenSeparates(x: real, y: real)
    requires y - x > 1.0
    ensures HalfEven(x) < HalfEven(y)
  {
  }

  /** `part` as a percentage of `total`, in hundredths of a percentage point. */
  function Percent(part: real, total: real): int
    requires total != 0.0
  {
    HalfEven(part / total * 10000.0)
  }

  lemma ShareMonotone(part: real, part': real, total: real)
    requires total > 0.0 && part <= part'
    ensures part / total <= part' / total
  {
    assert part' / total - part / total == (part' - part) / total;
  }

  lemma WholeShare(total: real)
    requires total != 0.0
    ensures total / total == 1.0
  {
  }

  lemma PercentMonotone(part: real, part': real, total: real)
    requires total > 0.0 && part <= part'
    ensures Percent(part, total) <= Percent(part', total)
  {
    ShareMonotone(part, part', total);
    HalfEvenMonotone(part / total * 10000.0, part' / total * 10000.0);
  }

  lemma PercentRange(part: real, total: real)
    requires 0.0 <= part <= total && total > 0.0
    ensures 0 <= Percent(part, total) <= 10000
  {
    ShareMonotone(0.0, part, total);
    ShareMonotone(part, total, total);
    WholeShare(total);
    HalfEvenUnique(0.0, 0);
    HalfEvenUnique(10000.0, 10000);
    HalfEvenMonotone(0.0, part / total * 10000.0);
    HalfEvenMonotone(part / total * 10000.0, 10000.0);
  }

  /** A lead of more than 0.01 percentage point of the total survives rounding. */
  lemma PercentSeparates(part: real, part': real, total: real)
    requires total > 0.0 && (part' - part) * 10000.0 > total
    ensures Percent(part, total) < Percent(part', total)
  {
    var lead := (part' - part) / total;
    assert lead == part' / total - part / total;
    assert lead * total == part' - part;
    assert (lead * 10000.0 - 1.0) * total > 0.0;
    assert lead * 10000.0 > 1.0;
    HalfEvenSeparates(part / total * 10000.0, part' / total * 10000.0);
  }

  /** The rounded percentage is within half a hundredth of a point of the share. */
  lemma PercentNearest(part: real, total: real)
    requires total > 0.0
    ensures var p := Percent(part, total) as real;
      -total <= 2.0 * (p * total - part * 10000.0) <= total
  {
    var x, p := part / total * 10000.0, Percent(part, total) as real;
    assert x * total == part * 10000.0;
    HalfOff(p - x, total, p * total - part * 10000.0);
  }

  lemma HalfOff(d: real, total: real, off: real)
    requires -0.5 <= d <= 0.5 && total >= 0.0 && off == d * total
    ensures -total <= 2.0 * off <= total
  {
    var under, over := 1.0 - 2.0 * d, 1.0 + 2.0 * d;
    assert under * total == total - 2.0 * off && over * total == total + 2.0 * off;
    Scaled(0.0, under, total);
    Scaled(0.0, over, total);
  }

  lemma Scaled(x: real, y: real, total: real)
    requires x <= y && total >= 0.0
    ensures x * total <= y * total
  {
  }
}
