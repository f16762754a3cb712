/**
 * The configuration store (product-calculator.js, lines 1-42, 126-167, 455-516 and
 * 568-650): one mutable settings object read by the calculation and changed in place by
 * the administration panel.
 */
module Config {
  import opened Wrappers
  import ServiceCost
  import Rates
  import Quotes

  const DefaultInterestRate: real := 1.286
  const DefaultRatios: seq<real> := [0.2, 0.3, 0.35, 0.4, 0.45, 0.5]
  const DefaultPeriods: seq<int> := [6, 10, 12]
  /** What the "add" buttons append. */
  const AddedRatio: real := 0.5
  const AddedPeriod: int := 30

  /** The list without its element at `index`; everything after it moves down by one. */
  function RemoveAt<T>(s: seq<T>, index: nat): (r: seq<T>)
    requires index < |s|
    ensures |r| == |s| - 1
    ensures forall k :: 0 <= k < index ==> r[k] == s[k]
    ensures forall k :: index <= k < |r| ==> r[k] == s[k + 1]
    ensures multiset(r) + multiset{s[index]} == multiset(s)
  {
    assert s == s[..index] + [s[index]] + s[index + 1..];
    s[..index] + s[index + 1..]
  }

  /** Settings as read back from storage; `serviceCost` may be missing. */
  datatype Snapshot = Snapshot(
    interestRate: real,
    downPaymentRatios: seq<real>,
    leasePeriods: seq<int>,
    rateTable: Rates.RateTable,
    serviceCost: Option<map<int, real>>)

  class Settings {
    var interestRate: real
    var downPaymentRatios: seq<real>
    var leasePeriods: seq<int>
    var rateTable: Rates.RateTable
    var serviceCost: map<int, real>

    /** Both option lists keep at least one entry. */
    ghost predicate Valid()
      reads this
    {
      |downPaymentRatios| >= 1 && |leasePeriods| >= 1
    }

    /** The settings the page starts with, before anything is loaded. */
    constructor ()
      ensures Valid()
      ensures interestRate == DefaultInterestRate
      ensures downPaymentRatios == DefaultRatios && leasePeriods == DefaultPeriods
      ensures rateTable == map[]
      ensures serviceCost == ServiceCost.DefaultServiceCost
    {
      interestRate := DefaultInterestRate;
      downPaymentRatios := DefaultRatios;
      leasePeriods := DefaultPeriods;
      rateTable := map[];
      serviceCost := ServiceCost.DefaultServiceCost;
    }

    method AddDownPaymentRatio()
      modifies this`downPaymentRatios
      ensures old(Valid()) ==> Valid()
      ensures downPaymentRatios == old(downPaymentRatios) + [AddedRatio]
    {
      downPaymentRatios := downPaymentRatios + [AddedRatio];
    }

    method AddLeasePeriod()
      modifies this`leasePeriods
      ensures old(Valid()) ==> Valid()
      ensures leasePeriods == old(leasePeriods) + [AddedPeriod]
    {
      leasePeriods := leasePeriods + [AddedPeriod];
    }

    /** Removes one ratio, unless it is the last one; `removed` says which happened. */
    method RemoveDownPaymentRatio(index: nat) returns (removed: bool)
      requires Valid() && index < |downPaymentRatios|
      modifies this`downPaymentRatios
      ensures Valid()
      ensures removed <==> |old(downPaymentRatios)| > 1
      ensures downPaymentRatios == if removed then RemoveAt(old(downPaymentRatios), index) else old(downPaymentRatios)
    {
      removed := |downPaymentRatios| > 1;
      if removed {
        downPaymentRatios := RemoveAt(downPaymentRatios, index);
      }
    }

    /** Removes one period, unless it is the last one; `removed` says which happened. */
    method RemoveLeasePeriod(index: nat) returns (removed: bool)
      requires Valid() && index < |leasePeriods|
      modifies this`leasePeriods
      ensures Valid()
      ensures removed <==> |old(leasePeriods)| > 1
      ensures leasePeriods == if removed then RemoveAt(old(leasePeriods), index) else old(leasePeriods)
    {
      removed := |leasePeriods| > 1;
      if removed {
        leasePeriods := RemoveAt(leasePeriods, index);
      }
    }

    method UpdateRatio(index: nat, value: real)
      requires Valid() && index < |downPaymentRatios|
      modifies this`downPaymentRatios
      ensures Valid()
      ensures downPaymentRatios == old(downPaymentRatios)[index := value]
    {
      downPaymentRatios := downPaymentRatios[index := value];
    }

    method UpdatePeriod(index: nat, value: int)
      requires Valid() && index < |leasePeriods|
      modifies this`leasePeriods
      ensures Valid()
      ensures leasePeriods == old(leasePeriods)[index := value]
    {
      leasePeriods := leasePeriods[index := value];
    }

    /** Stores one rate offset, creating the ratio's row when it has none. */
    method UpdateRateTable(ratio: real, period: int, rate: real)
      modifies this`rateTable
      ensures rateTable == Rates.SetRate(old(rateTable), ratio, period, rate)
    {
      if ratio !in rateTable {
        rateTable := rateTable[ratio := map[]];
      }
      rateTable := rateTable[ratio := rateTable[ratio][period := rate]];
    }

    /**
     * The rate cell of the panel: the administrator enters the displayed rate and the
     * offset from the baseline is stored. Quotes then use the entered rate, unless it is
     * the baseline itself.
     */
    method EditDisplayedRate(ratio: real, period: int, displayed: real)
      modifies this`rateTable
      ensures rateTable == Rates.SetRate(old(rateTable), ratio, period, displayed - Rates.RateBaseline)
      ensures Rates.DisplayedRate(rateTable, interestRate, ratio, period) == displayed
      ensures displayed != Rates.RateBaseline ==> Rates.EffectiveRate(rateTable, interestRate, ratio, period) == displayed
    {
      UpdateRateTable(ratio, period, displayed - Rates.RateBaseline);
      Rates.RateEditRoundTrip(old(rateTable), interestRate, ratio, period, displayed);
    }

    method UpdateServiceCost(interval: int, cost: real)
      modifies this`serviceCost
      ensures serviceCost == old(serviceCost)[interval := cost]
    {
      serviceCost := serviceCost[interval := cost];
    }

    /** Replaces the rate table with the default one. */
    method InitializeDefaultRateTable()
      modifies this`rateTable
      ensures rateTable == Rates.RowsTable(Rates.DefaultRateData)
    {
      rateTable := Rates.BuildDefaultRateTable();
    }

    /**
     * Loads saved settings when there are any, repairing missing service-cost floors
     * (`costInputs` holds the values of the fee fields the page has); without saved
     * settings only the default rate table is installed.
     */
    method LoadSettings(saved: Option<Snapshot>, costInputs: map<int, real>)
      requires Valid()
      modifies this
      ensures saved.None? || (|saved.value.downPaymentRatios| >= 1 && |saved.value.leasePeriods| >= 1) ==> Valid()
      ensures saved.None? ==>
                && rateTable == Rates.RowsTable(Rates.DefaultRateData)
                && interestRate == old(interestRate)
                && downPaymentRatios == old(downPaymentRatios) && leasePeriods == old(leasePeriods)
                && serviceCost == old(serviceCost)
      ensures saved.Some? ==>
                var s := saved.value;
                var costs := if s.serviceCost.Some? then s.serviceCost.value else map[];
                && interestRate == s.interestRate
                && downPaymentRatios == s.downPaymentRatios && leasePeriods == s.leasePeriods
                && rateTable == s.rateTable
                && serviceCost.Keys == costs.Keys + set f | f in ServiceCost.Floors
                && (forall k :: k in costs ==> k in serviceCost && serviceCost[k] == costs[k])
                && (forall f :: f in ServiceCost.Floors && f !in costs ==> f in serviceCost && serviceCost[f] == ServiceCost.MissingFee(costInputs, f))
    {
      if saved.Some? {
        var s := saved.value;
        interestRate := s.interestRate;
        downPaymentRatios := s.downPaymentRatios;
        leasePeriods := s.leasePeriods;
        rateTable := s.rateTable;
        var costs := if s.serviceCost.Some? then s.serviceCost.value else map[];
        serviceCost := ServiceCost.RepairServiceCost(costs, costInputs);
      } else {
        InitializeDefaultRateTable();
      }
    }

    /**
     * The quote for the current settings: validate the price, resolve the rate and the
     * service fee, and compute the breakdown.
     */
    method Calculate(priceInput: Option<real>, ratio: real, period: int) returns (r: Result<Quotes.Quote, Quotes.QuoteError>)
      ensures r == Quotes.QuoteFor(priceInput, ratio, period, interestRate, rateTable, serviceCost)
    {
      var checked := Quotes.ValidatePrice(priceInput);
      if checked.Failure? {
        return Failure(Quotes.InvalidPrice(checked.error));
      }
      var productPrice := checked.value;
      if period < 2 {
        return Failure(Quotes.DegenerateTerm);
      }
      var effectiveRate := Rates.EffectiveRate(rateTable, interestRate, ratio, period);
      var fee := ServiceCost.CalculateServiceCost(productPrice, serviceCost);
      r := Success(Quotes.QuoteOf(productPrice, ratio, period, effectiveRate, fee));
    }
  }
}
