/**
 * Price validation and quote arithmetic (product-calculator.js, lines 100-122, 126-167
 * and 233-247).
 *
 * A quote splits a price into a down payment and an unpaid balance, charges rent on the
 * balance at the effective rate, adds the service fee, and spreads everything but the
 * down payment evenly over periods 2..period (period 1 is the down payment itself).
 */
module Quotes {
  import opened Wrappers
  import ServiceCost
  import Rates

  const MinPrice: real := 2000.0
  const MaxPrice: real := 1000000.0

  /** Why a price was refused, in the order the checks run. */
  datatype PriceError = NotPositive | BelowMinimum | AboveMaximum

  /**
   * The numeric checks on a parsed price; `None` is a price that did not parse (NaN).
   * A price is accepted exactly when it lies in [MinPrice, MaxPrice].
   */
  function ValidatePrice(parsed: Option<real>): (r: Result<real, PriceError>)
    ensures r.Success? <==> parsed.Some? && MinPrice <= parsed.value <= MaxPrice
    ensures r.Success? ==> r.value == parsed.value
    ensures r == Failure(NotPositive) <==> parsed.None? || parsed.value <= 0.0
    ensures r == Failure(BelowMinimum) <==> parsed.Some? && 0.0 < parsed.value < MinPrice
    ensures r == Failure(AboveMaximum) <==> parsed.Some? && parsed.value > MaxPrice
  {
    match parsed
    case None => Failure(NotPositive)
    case Some(price) =>
      if price <= 0.0 then Failure(NotPositive)
      else if price < MinPrice then Failure(BelowMinimum)
      else if price > MaxPrice then Failure(AboveMaximum)
      else Success(price)
  }

  /** The breakdown shown to the customer. */
  datatype Quote = Quote(
    downPayment: real,
    rentAmount: real,
    serviceCost: real,
    totalAmountToPay: real,
    monthlyPayment: real,
    leasePeriod: int)

  datatype QuoteError = InvalidPrice(reason: PriceError) | DegenerateTerm

  /** The quote for a validated price, once the rate and the service fee are known. */
  function QuoteOf(price: real, ratio: real, period: int, effectiveRate: real, serviceCost: real): (q: Quote)
    requires period >= 2
    ensures q.leasePeriod == period
    ensures q.totalAmountToPay == q.downPayment + q.rentAmount + q.serviceCost
    ensures q.monthlyPayment * (period - 1) as real == q.totalAmountToPay - q.downPayment
  {
    var downPayment := price * ratio;
    var unpaidAmount := price - downPayment;
    var rentAmount := unpaidAmount * (effectiveRate / 100.0);
    var totalAmountToPay := downPayment + rentAmount + serviceCost;
    var monthlyPayment := (totalAmountToPay - downPayment) / (period - 1) as real;
    Quote(downPayment, rentAmount, serviceCost, totalAmountToPay, monthlyPayment, period)
  }

  /**
   * The quote in terms of its inputs: the down payment is the ratio's share of the
   * price, rent is charged on the rest, and the installments carry rent plus fee.
   */
  lemma QuoteClosedForm(price: real, ratio: real, period: int, effectiveRate: real, serviceCost: real)
    requires period >= 2
    ensures var q := QuoteOf(price, ratio, period, effectiveRate, serviceCost);
      && q.downPayment == price * ratio
      && q.downPayment + price * (1.0 - ratio) == price
      && q.rentAmount == price * (1.0 - ratio) * effectiveRate / 100.0
      && q.serviceCost == serviceCost
      && q.monthlyPayment * (period - 1) as real == price * (1.0 - ratio) * effectiveRate / 100.0 + serviceCost
  {
  }

  /**
   * The whole calculation against one configuration snapshot: validate the price,
   * refuse a term without installments, then price the quote.
   */
  function QuoteFor(priceInput: Option<real>, ratio: real, period: int, interestRate: real,
                    rateTable: Rates.RateTable, serviceCost: map<int, real>): (r: Result<Quote, QuoteError>)
    ensures r.Success? <==> priceInput.Some? && MinPrice <= priceInput.value <= MaxPrice && period >= 2
    ensures ValidatePrice(priceInput).Failure? ==> r == Failure(InvalidPrice(ValidatePrice(priceInput).error))
    ensures r == Failure(DegenerateTerm) <==> ValidatePrice(priceInput).Success? && period < 2
    ensures r.Success? ==>
              && r.value.leasePeriod == period
              && r.value.totalAmountToPay == r.value.downPayment + r.value.rentAmount + r.value.serviceCost
              && r.value.monthlyPayment * (period - 1) as real == r.value.totalAmountToPay - r.value.downPayment
  {
    match ValidatePrice(priceInput)
    case Failure(e) => Failure(InvalidPrice(e))
    case Success(price) =>
      if period < 2 then Failure(DegenerateTerm)
      else Success(QuoteOf(price, ratio, period,
                           Rates.EffectiveRate(rateTable, interestRate, ratio, period),
                           ServiceCost.ServiceCostFee(serviceCost, price)))
  }

  /**
   * A produced quote is priced with the rate and the service fee resolved from the
   * snapshot for that ratio, period and price.
   */
  lemma QuoteForOutcome(priceInput: Option<real>, ratio: real, period: int, interestRate: real,
                        rateTable: Rates.RateTable, serviceCost: map<int, real>)
    ensures var r := QuoteFor(priceInput, ratio, period, interestRate, rateTable, serviceCost);
      r.Success? ==>
            r.value == QuoteOf(priceInput.value, ratio, period,
                               Rates.EffectiveRate(rateTable, interestRate, ratio, period),
                               ServiceCost.ServiceCostFee(serviceCost, priceInput.value))
  {
  }

  /** One line of the installment list: the period number and its amount. */
  datatype Installment = Installment(index: int, amount: real)

  /** The sum of the amounts of a list of installments. */
  function TotalBilled(items: seq<Installment>): real
  {
    if items == [] then 0.0 else TotalBilled(items[..|items| - 1]) + items[|items| - 1].amount
  }

  /**
   * The installment list: one line per period from 2 to `period`, each for the monthly
   * payment. Together the lines bill the monthly payment times their number.
   */
  method InstallmentSchedule(monthlyPayment: real, period: int) returns (items: seq<Installment>)
    ensures |items| == if period >= 2 then period - 1 else 0
    ensures forall k :: 0 <= k < |items| ==> items[k] == Installment(k + 2, monthlyPayment)
    ensures TotalBilled(items) == monthlyPayment * |items| as real
  {
    items := [];
    var i := 2;
    while i <= period
      invariant 2 <= i && (period >= 2 ==> i <= period + 1) && (period < 2 ==> i == 2)
      invariant |items| == i - 2
      invariant forall k :: 0 <= k < |items| ==> items[k] == Installment(k + 2, monthlyPayment)
      invariant TotalBilled(items) == monthlyPayment * |items| as real
    {
      var line := Installment(i, monthlyPayment);
      assert (items + [line])[..|items|] == items;
      items := items + [line];
      i := i + 1;
    }
  }

  /**
   * The down payment plus every installment of the schedule is the total to pay: a
   * schedule of `period - 1` lines at the monthly payment settles the quote.
   */
  lemma {:induction false} ScheduleSettlesQuote(q: Quote, items: seq<Installment>)
    requires q.leasePeriod >= 2
    requires q.monthlyPayment * (q.leasePeriod - 1) as real == q.totalAmountToPay - q.downPayment
    requires |items| == q.leasePeriod - 1
    requires forall k :: 0 <= k < |items| ==> items[k].amount == q.monthlyPayment
    ensures q.downPayment + TotalBilled(items) == q.totalAmountToPay
  {
    BilledAtFlatRate(items, q.monthlyPayment);
  }

  lemma {:induction false} BilledAtFlatRate(items: seq<Installment>, amount: real)
    requires forall k :: 0 <= k < |items| ==> items[k].amount == amount
    ensures TotalBilled(items) == amount * |items| as real
  {
    if items != [] {
      BilledAtFlatRate(items[..|items| - 1], amount);
    }
  }

  /**
   * A worked quote on the default settings: price 5000 at ratio 0.3 over 10 periods uses
   * the stored offset 37.3 and the fee of floor 4850.
   */
  lemma DefaultSettingsQuote()
    ensures QuoteFor(Some(5000.0), 0.3, 10, 1.286, Rates.RowsTable(Rates.DefaultRateData),
                     ServiceCost.DefaultServiceCost)
         == Success(Quote(1500.0, 4805.5, 150.0, 6455.5, 4955.5 / 9.0, 10))
  {
    Rates.DefaultTableCells(1.286, 1, 1);
    ServiceCost.BucketIs(5000.0, 11);
    assert ServiceCost.ServiceCostFee(ServiceCost.DefaultServiceCost, 5000.0) == 150.0;
  }
}
