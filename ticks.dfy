/**
 * The inventory chart's y-axis labels: a negative value is a backlog of its
 * magnitude, any other value a number of units.
 */
module Ticks {
  import opened Wrappers

  function DigitChar(d: nat): (c: char)
    requires d < 10
    ensures '0' <= c <= '9'
  {
    "0123456789"[d]
  }

  predicate IsDigit(c: char)
  {
    '0' <= c <= '9'
  }

  /** The decimal numeral of `n`, as JavaScript prints a whole number. */
  function Decimal(n: nat): (s: string)
    ensures |s| > 0 && forall k :: 0 <= k < |s| ==> IsDigit(s[k])
    decreases n
  {
    if n < 10 then [DigitChar(n)] else Decimal(n / 10) + [DigitChar(n % 10)]
  }

  /** The value of a numeral. */
  function ParseDecimal(s: string): int
    requires forall k :: 0 <= k < |s| ==> IsDigit(s[k])
    decreases |s|
  {
    if s == [] then 0
    else ParseDecimal(s[..|s| - 1]) * 10 + ((s[|s| - 1] as int) - ('0' as int))
  }

  lemma {:induction false} ParseDecimalOf(n: nat)
    ensures ParseDecimal(Decimal(n)) == n
    decreases n
  {
    var s := Decimal(n);
    if n >= 10 {
      ParseDecimalOf(n / 10);
      assert s[..|s| - 1] == Decimal(n / 10);
    }
  }

  /** The tick callback. */
  function TickLabel(value: int): string
  {
    if value < 0 then Decimal(-value) + " Backlog" else Decimal(value) + " Units"
  }

  /** The value a label stands for, if it is a label at all. */
  function ReadTick(text: string): Option<int>
  {
    if |text| > 8 && text[|text| - 8..] == " Backlog" && forall k :: 0 <= k < |text| - 8 ==> IsDigit(text[k]) then
      Some(0 - ParseDecimal(text[..|text| - 8]))
    else if |text| > 6 && text[|text| - 6..] == " Units" && forall k :: 0 <= k < |text| - 6 ==> IsDigit(text[k]) then
      Some(ParseDecimal(text[..|text| - 6]))
    else None
  }

  /** Every text reads back as its value, so no two values share a text. */
  lemma ReadTickLabel(value: int)
    ensures ReadTick(TickLabel(value)) == Some(value)
  {
    var text := TickLabel(value);
    if value < 0 {
      var digits := Decimal(-value);
      ParseDecimalOf(-value);
      assert text[..|text| - 8] == digits;
      assert text[|text| - 8..] == " Backlog";
      assert text[|text| - 6..] != " Units" by {
        assert text[|text| - 1] == 'g';
      }
    } else {
      var digits := Decimal(value);
      ParseDecimalOf(value);
      assert text[..|text| - 6] == digits;
      assert text[|text| - 6..] == " Units";
      if |text| > 8 {
        assert text[|text| - 8..] != " Backlog" by {
          assert text[|text| - 1] == 's';
        }
      }
    }
  }

  lemma TickLabelExamples()
    ensures TickLabel(-35) == "35 Backlog"
    ensures TickLabel(0) == "0 Units"
    ensures TickLabel(20) == "20 Units"
  {
    assert Decimal(35) == Decimal(3) + [DigitChar(5)];
    assert Decimal(20) == Decimal(2) + [DigitChar(0)];
  }
}
