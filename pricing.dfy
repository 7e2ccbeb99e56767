/** PaymentServiceImpl's `getAmount` and the exact conversion of the amount to
    a `long` for the payment gateway. */
module Pricing {
  import opened Wrappers
  import opened DateTimes
  import opened JavaInts

  /** FINE_DAILY_MULTIPLIER: a late day costs half the daily price. */
  const FineDailyMultiplier: real := 0.50

  /** `actualReturnDate.isAfter(returnDate)`, on full timestamps. */
  predicate IsOverdue(returnDate: DateTime, actualReturnDate: DateTime) {
    IsAfter(actualReturnDate, returnDate)
  }

  /** Daily price times the calendar days booked. */
  function BasicAmount(dailyPrice: real, rentalDate: DateTime, returnDate: DateTime): real {
    dailyPrice * DaysBetween(rentalDate, returnDate) as real
  }

  /** Daily price times the calendar days late, times the fine multiplier. */
  function FineAmount(dailyPrice: real, returnDate: DateTime, actualReturnDate: DateTime): real {
    dailyPrice * DaysBetween(returnDate, actualReturnDate) as real * FineDailyMultiplier
  }

  /** `getAmount`: the booked days are charged in full; only an overdue rental
      also pays the fine for its late calendar days. */
  function Amount(isOverdue: bool, dailyPrice: real, rentalDate: DateTime, returnDate: DateTime,
                  actualReturnDate: DateTime): (amount: real)
    ensures !isOverdue ==> amount == BasicAmount(dailyPrice, rentalDate, returnDate)
    ensures isOverdue ==> amount == BasicAmount(dailyPrice, rentalDate, returnDate)
                                    + FineAmount(dailyPrice, returnDate, actualReturnDate)
  {
    if isOverdue then
      var rentalDays := DaysBetween(rentalDate, returnDate);
      var overdueDays := DaysBetween(returnDate, actualReturnDate);
      dailyPrice * rentalDays as real + dailyPrice * overdueDays as real * FineDailyMultiplier
    else
      dailyPrice * DaysBetween(rentalDate, returnDate) as real
  }

  /** A return later on the due day is overdue, so typed FINE, yet its fine is
      zero: lateness is judged on timestamps, the fine counted in dates. */
  lemma SameDayLateReturnHasZeroFine(dailyPrice: real, rentalDate: DateTime, returnDate: DateTime,
                                     actualReturnDate: DateTime)
    requires actualReturnDate.day == returnDate.day && actualReturnDate.time > returnDate.time
    ensures IsOverdue(returnDate, actualReturnDate)
    ensures Amount(true, dailyPrice, rentalDate, returnDate, actualReturnDate)
            == Amount(false, dailyPrice, rentalDate, returnDate, actualReturnDate)
  {
  }

  /** With a non-negative price and an ordered booking, the amount is never
      negative, and a late return never costs less than an on-time one. */
  lemma {:induction false} AmountNonNegative(dailyPrice: real, rentalDate: DateTime, returnDate: DateTime,
                                             actualReturnDate: DateTime)
    requires dailyPrice >= 0.0 && rentalDate.day <= returnDate.day
    ensures Amount(false, dailyPrice, rentalDate, returnDate, actualReturnDate) >= 0.0
    ensures IsOverdue(returnDate, actualReturnDate) ==>
              Amount(true, dailyPrice, rentalDate, returnDate, actualReturnDate)
              >= Amount(false, dailyPrice, rentalDate, returnDate, actualReturnDate)
  {
    var days := DaysBetween(rentalDate, returnDate) as real;
    MulNonNegative(dailyPrice, days);
    if IsOverdue(returnDate, actualReturnDate) {
      FineNonNegative(dailyPrice, returnDate, actualReturnDate);
    }
  }

  /** A return after the due timestamp is on the due date or a later one, so
      with a non-negative price its fine is never negative. */
  lemma {:induction false} FineNonNegative(dailyPrice: real, returnDate: DateTime, actualReturnDate: DateTime)
    requires dailyPrice >= 0.0 && IsOverdue(returnDate, actualReturnDate)
    ensures DaysBetween(returnDate, actualReturnDate) >= 0
    ensures FineAmount(dailyPrice, returnDate, actualReturnDate) >= 0.0
  {
    var late := DaysBetween(returnDate, actualReturnDate) as real;
    MulNonNegative(dailyPrice, late);
    MulNonNegative(dailyPrice * late, FineDailyMultiplier);
  }

  lemma MulNonNegative(x: real, y: real)
    requires x >= 0.0 && y >= 0.0
    ensures x * y >= 0.0
  {
  }

  /** The worked example: booked 1 to 5 September (4 days) at 10 a day,
      returned on 7 September (2 days late): 10*4 + 10*2*0.50 = 50. */
  lemma WorkedExample(noon: TimeOfDay)
    ensures var booked := DateTime(20332, noon);
            var due := DateTime(20336, noon);
            var back := DateTime(20338, noon);
            IsOverdue(due, back) && Amount(true, 10.0, booked, due, back) == 50.0
  {
  }

  /** `BigDecimal.longValueExact`: the amount itself, when it has no fractional
      part and fits in a `long`; otherwise an ArithmeticException. */
  function LongValueExact(amount: real): (r: Result<int>)
    ensures r.Ok? <==> amount == amount.Floor as real && IsLong(amount.Floor)
    ensures r.Ok? ==> r.value as real == amount
    ensures r.Err? ==> r.error == Arithmetic
  {
    if amount == amount.Floor as real && IsLong(amount.Floor) then Ok(amount.Floor) else Err(Arithmetic)
  }

  /** A whole daily price on an on-time rental always converts. */
  lemma {:induction false} WholePriceConverts(price: int, rentalDate: DateTime, returnDate: DateTime)
    requires IsLong(price * DaysBetween(rentalDate, returnDate))
    ensures LongValueExact(BasicAmount(price as real, rentalDate, returnDate))
            == Ok(price * DaysBetween(rentalDate, returnDate))
  {
    var n := DaysBetween(rentalDate, returnDate);
    var a := BasicAmount(price as real, rentalDate, returnDate);
    assert a == (price * n) as real;
    assert a.Floor == price * n;
  }

  /** A price with a fractional part, such as 10.50 for one day, makes the
      conversion fail. */
  lemma {:induction false} FractionalAmountFails(rentalDate: DateTime)
    ensures LongValueExact(BasicAmount(10.50, rentalDate, DateTime(rentalDate.day + 1, rentalDate.time))) == Err(Arithmetic)
  {
    var a := BasicAmount(10.50, rentalDate, DateTime(rentalDate.day + 1, rentalDate.time));
    assert a == 10.50;
    assert a.Floor == 10;
  }
}
