/** The size shown next to a progress bar (index.js:154-163, index.js:168):
    a unit chosen from the declared total size, and byte counts divided by that
    unit's divider and rounded to the nearest integer. */
module Sizes {
  import opened Text

  datatype Unit = KB | MB | GB

  function Divider(u: Unit): (d: nat)
    ensures d > 0
  {
    match u
    case KB => 1000
    case MB => 1000000
    case GB => 1000000000
  }

  function UnitName(u: Unit): (s: string)
    ensures |s| == 2
  {
    match u
    case KB => "KB"
    case MB => "MB"
    case GB => "GB"
  }

  /** The if/else chain on `totalSize` with thresholds 10^6 and 10^9. */
  function UnitFor(total: nat): (u: Unit)
    // the largest unit whose divider does not exceed the total (KB when none does)
    ensures u == KB || Divider(u) <= total
    ensures u == GB || total < 1000 * Divider(u)
  {
    if total < 1000000 then KB
    else if total < 1000000000 then MB
    else GB
  }

  /** `Math.round(x / d)` on non-negative integers: the nearest integer, halves
      rounded up, computed without floating point as (2x + d) / 2d. */
  function RoundDiv(x: nat, d: nat): (r: nat)
    requires d > 0
    ensures 2 * d * r <= 2 * x + d < 2 * d * (r + 1)
  {
    (2 * x + d) / (2 * d)
  }

  /** Rounding is monotone: a larger count never shows a smaller number. */
  lemma RoundDivMonotone(x: nat, y: nat, d: nat)
    requires d > 0 && x <= y
    ensures RoundDiv(x, d) <= RoundDiv(y, d)
  {
    DivMonotone(2 * x + d, 2 * y + d, 2 * d);
  }

  lemma MulLeft(m: nat, x: nat, y: nat)
    requires x <= y
    ensures m * x <= m * y
  {
    assert m * y == m * x + m * (y - x);
  }

  lemma DivMonotone(a: nat, b: nat, m: nat)
    requires a <= b && 0 < m
    ensures a / m <= b / m
  {
    var qa, qb := a / m, b / m;
    assert m * qa <= a;
    assert b < m * (qb + 1);
    if qb + 1 <= qa {
      MulLeft(m, qb + 1, qa);
      assert false;
    }
  }

  /** `size`: the rounded total followed by the unit's name. SizeLabelReadsBack
      shows that the digits read back as the rounded total. */
  function SizeLabel(total: nat): (shown: string)
    ensures |shown| >= 3
    ensures shown[|shown| - 2..] == UnitName(UnitFor(total))
  {
    var u := UnitFor(total);
    DecimalString(RoundDiv(total, Divider(u))) + UnitName(u)
  }

  /** Reading a size label back: its last two characters name the unit, and the
      digits before them are the total divided by that unit's divider, rounded. */
  lemma SizeLabelReadsBack(total: nat)
    ensures var shown := SizeLabel(total); var u := UnitFor(total);
      && |shown| >= 3
      && shown[|shown| - 2..] == UnitName(u)
      && AllDigits(shown[..|shown| - 2])
      && DecimalValue(shown[..|shown| - 2]) == RoundDiv(total, Divider(u))
  {
    var u := UnitFor(total);
    var digits := DecimalString(RoundDiv(total, Divider(u)));
    var shown := SizeLabel(total);
    assert shown[..|shown| - 2] == digits;
    assert shown[|shown| - 2..] == UnitName(u);
    DecimalRoundTrip(RoundDiv(total, Divider(u)));
  }

  /** Below GB the number shown is at most 1000 (999,500 bytes shows as
      "1000KB"); from MB up it is at least 1. */
  lemma DisplayedRange(total: nat)
    ensures UnitFor(total) != GB ==> RoundDiv(total, Divider(UnitFor(total))) <= 1000
    ensures UnitFor(total) != KB ==> RoundDiv(total, Divider(UnitFor(total))) >= 1
  {
  }

  lemma SmallDecimals()
    ensures DecimalString(1) == "1" && DecimalString(5) == "5" && DecimalString(500) == "500"
  {
    assert DecimalString(500) == DecimalString(50) + [DigitChar(0)];
    assert DecimalString(50) == DecimalString(5) + [DigitChar(0)];
  }

  /** A size label is the rounded number's decimal text followed by the unit's name. */
  lemma SizeLabelFrom(total: nat, u: Unit, n: nat)
    requires UnitFor(total) == u && RoundDiv(total, Divider(u)) == n
    ensures SizeLabel(total) == DecimalString(n) + UnitName(u)
  {
  }

  /** Example size labels, the thresholds included. */
  lemma SizeLabelExamples(a: nat, b: nat, c: nat, d: nat, e: nat)
    requires a == 500000 && b == 5000000 && c == 5000000000 && d == 1000000 && e == 1000000000
    ensures SizeLabel(a) == "500KB" && SizeLabel(b) == "5MB" && SizeLabel(c) == "5GB"
    ensures SizeLabel(d) == "1MB" && SizeLabel(e) == "1GB"
  {
    SmallDecimals();
    SizeLabelFrom(a, KB, 500);
    SizeLabelFrom(b, MB, 5);
    SizeLabelFrom(c, GB, 5);
    SizeLabelFrom(d, MB, 1);
    SizeLabelFrom(e, GB, 1);
  }
}
