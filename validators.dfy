/**
 * The input checks of the stocks model: quantities, amounts, commissions, intervals, the weights
 * of an investment strategy and the parts of a calendar date typed by the user. The wall clock is
 * the parameter `today`; None stands for an exception the check lets escape.
 */
module Validators {
  import opened Wrappers
  import Text
  import Calendar

  /** checkValidQuantity: a quantity must be positive. */
  predicate CheckValidQuantity(quantity: real) {
    quantity > 0.0
  }

  /** checkValidInvestmentValue: the amount invested per cycle must be positive. */
  predicate CheckValidInvestmentValue(investmentValue: real) {
    investmentValue > 0.0
  }

  /** checkValidCommission: a commission may be zero but not negative. */
  predicate CheckValidCommission(commission: real) {
    commission >= 0.0
  }

  /** checkInterval: at least one day between two investment cycles. */
  predicate CheckInterval(interval: int) {
    interval >= 1
  }

  // ---------------------------------------------------------------------------------------------
  // Weights

  /** The total of the weights, added left to right. */
  function Sum(ws: seq<real>): real
    decreases |ws|
  {
    if ws == [] then 0.0 else Sum(ws[..|ws| - 1]) + ws[|ws| - 1]
  }

  lemma SumSnoc(ws: seq<real>, w: real)
    ensures Sum(ws + [w]) == Sum(ws) + w
  {
    assert (ws + [w])[..|ws|] == ws;
  }

  /** The condition checkValidWeightage returns. */
  predicate WeightageAccepted(ws: seq<real>, w: real) {
    0.0 <= w <= 100.0 && 0.0 <= Sum(ws) + w <= 100.0
  }

  /** checkValidWeightage: the loop adding up the weights so far, then the range checks. */
  method CheckValidWeightage(ws: seq<real>, w: real) returns (ok: bool)
    ensures ok <==> WeightageAccepted(ws, w)
  {
    var total := 0.0;
    for i := 0 to |ws|
      invariant total == Sum(ws[..i])
    {
      assert ws[..i + 1] == ws[..i] + [ws[i]];
      SumSnoc(ws[..i], ws[i]);
      total := total + ws[i];
    }
    assert ws[..|ws|] == ws;
    ok := w >= 0.0 && w <= 100.0 && total + w >= 0.0 && total + w <= 100.0;
  }

  /** Weights entered one at a time, each accepted against the ones before it. */
  predicate AcceptedOneByOne(ws: seq<real>) {
    forall i :: 0 <= i < |ws| ==> WeightageAccepted(ws[..i], ws[i])
  }

  /** Weights accepted one by one each lie in [0, 100] and never total more than 100. */
  lemma {:induction false} AcceptedWeightsWithinHundred(ws: seq<real>)
    requires AcceptedOneByOne(ws)
    ensures forall i :: 0 <= i < |ws| ==> 0.0 <= ws[i] <= 100.0
    ensures 0.0 <= Sum(ws) <= 100.0
    decreases |ws|
  {
    if ws != [] {
      var n := |ws| - 1;
      var front := ws[..n];
      assert AcceptedOneByOne(front) by {
        forall i | 0 <= i < |front| ensures WeightageAccepted(front[..i], front[i]) {
          assert front[..i] == ws[..i];
        }
      }
      AcceptedWeightsWithinHundred(front);
      assert WeightageAccepted(ws[..n], ws[n]);
      assert ws == front + [ws[n]];
      SumSnoc(front, ws[n]);
    }
  }

  /** The two cases the model's tests check: 30 fits after 20 and 50, another 50 does not. */
  lemma WeightageExamples()
    ensures WeightageAccepted([20.0, 50.0], 30.0)
    ensures !WeightageAccepted([20.0, 50.0], 50.0)
  {
    assert Sum([20.0, 50.0]) == 70.0 by {
      assert [20.0, 50.0][..1] == [20.0];
      assert [20.0][..0] == [];
    }
  }

  // ---------------------------------------------------------------------------------------------
  // Dates typed by the user

  /** The year range of `YearMonth.of`. */
  predicate IsIsoYear(y: int) {
    -999_999_999 <= y <= 999_999_999
  }

  /** checkValidYear: an integer from 1999 to the current year; None when the text is not an integer. */
  function CheckValidYear(year: string, currentYear: int): (r: Option<bool>)
    ensures r.None? <==> Text.ParseInt(year).None?
    ensures r == Some(true) ==> 1999 <= Text.ParseInt(year).value <= currentYear
  {
    match Text.ParseInt(year)
    case None => None
    case Some(y) => Some(1999 <= y <= currentYear)
  }

  /** checkValidMonth: an integer from 1 to 12; None when the text is not an integer. */
  function CheckValidMonth(month: string): (r: Option<bool>)
    ensures r.None? <==> Text.ParseInt(month).None?
    ensures r == Some(true) ==> 1 <= Text.ParseInt(month).value <= 12
  {
    match Text.ParseInt(month)
    case None => None
    case Some(m) => Some(1 <= m <= 12)
  }

  /**
   * checkValidDate: the day must lie within the month's length. None when a text is not an
   * integer or `YearMonth.of` rejects the year or the month.
   */
  function CheckValidDate(date: string, month: string, year: string): (r: Option<bool>)
    ensures r.Some? <==>
      Text.ParseInt(year).Some? && Text.ParseInt(month).Some? && Text.ParseInt(date).Some?
      && IsIsoYear(Text.ParseInt(year).value) && 1 <= Text.ParseInt(month).value <= 12
    ensures r == Some(true) && Text.ParseInt(year).value >= 1 ==>
      Calendar.ValidDate(Calendar.Date(Text.ParseInt(year).value, Text.ParseInt(month).value, Text.ParseInt(date).value))
  {
    var y, m, d := Text.ParseInt(year), Text.ParseInt(month), Text.ParseInt(date);
    if y.None? || m.None? || !IsIsoYear(y.value) || !(1 <= m.value <= 12) || d.None? then None
    else Some(1 <= d.value <= Calendar.DaysInMonth(y.value, m.value))
  }

  /**
   * checkValidBuyDate: a trading date is neither after today nor a Saturday or a Sunday. None when
   * the text is not a date (the second parse throws).
   */
  function CheckValidBuyDate(buyDate: string, today: Calendar.Date): (r: Option<bool>)
    requires Calendar.ValidDate(today)
    ensures r.Some? <==> Calendar.ParseDate(buyDate).Some?
  {
    match Calendar.ParseDate(buyDate)
    case None => None
    case Some(d) => Some(Calendar.NotAfter(d, today) && !Calendar.IsWeekend(d))
  }

  /** On the text of a date, checkValidBuyDate accepts exactly the weekdays up to today. */
  lemma BuyDateOfFormat(d: Calendar.Date, today: Calendar.Date)
    requires Calendar.ValidDate(d) && Calendar.ValidDate(today)
    ensures CheckValidBuyDate(Calendar.FormatDate(d), today)
         == Some(Calendar.NotAfter(d, today)
                 && Calendar.DayOfWeek(d) != Calendar.Saturday && Calendar.DayOfWeek(d) != Calendar.Sunday)
  {
    Calendar.ParseFormatDate(d);
  }

  /** A real date's parts, written as integers, pass the three date checks when its year is in range. */
  lemma DatePartsAccepted(d: Calendar.Date, currentYear: int)
    requires Calendar.ValidDate(d) && 1999 <= d.year <= currentYear && IsIsoYear(currentYear)
    ensures CheckValidYear(Text.IntText(d.year), currentYear) == Some(true)
    ensures CheckValidMonth(Text.IntText(d.month)) == Some(true)
    ensures CheckValidDate(Text.IntText(d.day), Text.IntText(d.month), Text.IntText(d.year)) == Some(true)
  {
    Text.ParseIntText(d.year);
    Text.ParseIntText(d.month);
    Text.ParseIntText(d.day);
    assert Calendar.DaysInMonth(d.year, d.month) <= 31;
  }

  /** The tests' 2022-10-31 is a valid purchase date from that day on: it was a Monday. */
  lemma LastBundledDayAccepted(today: Calendar.Date)
    requires Calendar.ValidDate(today) && Calendar.NotAfter(Calendar.Date(2022, 10, 31), today)
    ensures CheckValidBuyDate(Calendar.FormatDate(Calendar.Date(2022, 10, 31)), today) == Some(true)
  {
    Calendar.LastBundledDayIsMonday();
    BuyDateOfFormat(Calendar.Date(2022, 10, 31), today);
  }
}
