/** The order number of `orders/views.py`: the order date written as
    `YYYYMMDD` followed by the decimal primary key of the order. */
module OrderNumbers {
  import opened Text

  /** A calendar date, as `datetime.date` holds it. */
  datatype Date = Date(year: int, month: int, day: int)

  predicate IsLeapYear(y: int)
  {
    (y % 4 == 0 && y % 100 != 0) || y % 400 == 0
  }

  function DaysInMonth(y: int, m: int): int
  {
    if m == 2 then (if IsLeapYear(y) then 29 else 28)
    else if m == 4 || m == 6 || m == 9 || m == 11 then 30
    else 31
  }

  /** A date `datetime.date` accepts, restricted to four-digit years. */
  predicate ValidDate(d: Date)
  {
    1000 <= d.year <= 9999 && 1 <= d.month <= 12 && 1 <= d.day <= DaysInMonth(d.year, d.month)
  }

  /** `strftime("%Y%m%d")`: eight digits, each field zero-padded. */
  function DateString(d: Date): (s: string)
    requires ValidDate(d)
    ensures |s| == 8 && AllDigits(s)
  {
    Padded(d.year, 4) + Padded(d.month, 2) + Padded(d.day, 2)
  }

  /** Reading the three fields back out of the eight digits gives the date. */
  lemma ParseDateString(d: Date)
    requires ValidDate(d)
    ensures var s := DateString(d);
      ParseDigits(s[..4]) == d.year && ParseDigits(s[4..6]) == d.month && ParseDigits(s[6..]) == d.day
  {
    var s := DateString(d);
    assert s[..4] == Padded(d.year, 4);
    assert s[4..6] == Padded(d.month, 2);
    assert s[6..] == Padded(d.day, 2);
    ParsePadded(d.year, 4);
    ParsePadded(d.month, 2);
    ParsePadded(d.day, 2);
  }

  /** The order number: the date's eight digits, then `str(order.id)`. */
  function OrderNumber(d: Date, id: nat): (n: string)
    requires ValidDate(d)
    ensures |n| == 8 + |Decimal(id)|
    ensures AllDigits(n)
    ensures n[..8] == DateString(d) && n[8..] == Decimal(id)
  {
    DateString(d) + Decimal(id)
  }

  /** `n` has the shape of the order number of the order with key `id`:
      eight digits followed by the decimal rendering of `id`. */
  predicate NumberedBy(n: string, id: nat)
  {
    |n| >= 8 && AllDigits(n[..8]) && n[8..] == Decimal(id)
  }

  lemma OrderNumberShape(d: Date, id: nat)
    requires ValidDate(d)
    ensures NumberedBy(OrderNumber(d, id), id)
  {
  }

  /** Distinct (date, key) pairs give distinct order numbers. */
  lemma OrderNumberInjective(d1: Date, id1: nat, d2: Date, id2: nat)
    requires ValidDate(d1) && ValidDate(d2)
    requires OrderNumber(d1, id1) == OrderNumber(d2, id2)
    ensures d1 == d2 && id1 == id2
  {
    var n := OrderNumber(d1, id1);
    assert DateString(d1) == n[..8] == DateString(d2);
    ParseDateString(d1);
    ParseDateString(d2);
    DecimalInjective(id1, id2);
  }

  /** Orders with distinct keys never share a number, whatever their dates. */
  lemma NumberedByDistinct(n1: string, id1: nat, n2: string, id2: nat)
    requires NumberedBy(n1, id1) && NumberedBy(n2, id2) && id1 != id2
    ensures n1 != n2
  {
    DecimalInjective(id1, id2);
  }

  /** The declared column width of `order_number`. */
  const OrderNumberMaxLength := 20

  /** The number fits the 20-character column exactly while the key has at
      most twelve digits. */
  lemma OrderNumberFitsColumn(d: Date, id: nat)
    requires ValidDate(d) && id < Pow10(12)
    ensures |OrderNumber(d, id)| <= OrderNumberMaxLength
  {
    DecimalLength(id, 12);
  }

  lemma YearExample()
    ensures Padded(2024, 4) == "2024"
  {
    assert Padded(2, 1) == "2" by { assert DigitChar(2) == '2'; }
    assert Padded(20, 2) == "20" by { assert DigitChar(0) == '0'; }
    assert Padded(202, 3) == "202" by { assert DigitChar(2) == '2'; }
    assert DigitChar(4) == '4';
  }

  lemma MonthDayExample()
    ensures Padded(5, 2) == "05" && Padded(1, 2) == "01"
  {
    assert Padded(0, 1) == "0" by { assert DigitChar(0) == '0'; }
    assert DigitChar(5) == '5';
    assert DigitChar(1) == '1';
  }

  /** 1 May 2024 is written `20240501`. */
  lemma DateStringExample()
    ensures DateString(Date(2024, 5, 1)) == "20240501"
  {
    YearExample();
    MonthDayExample();
  }

  /** The orders placed on 1 May 2024 with keys 7 and 8 are numbered
      `202405017` and `202405018`. */
  lemma OrderNumberExample()
    ensures OrderNumber(Date(2024, 5, 1), 7) == "202405017"
    ensures OrderNumber(Date(2024, 5, 1), 8) == "202405018"
  {
    DateStringExample();
    assert Decimal(7) == "7" by { assert DigitChar(7) == '7'; }
    assert Decimal(8) == "8" by { assert DigitChar(8) == '8'; }
  }
}
