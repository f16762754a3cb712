/**
 * Which lease periods are offered for a down-payment ratio (product-calculator.js,
 * lines 318-346): period 12 is offered only when the ratio is at least 0.35; every
 * other period always is.
 */
module Gating {
  import opened Wrappers

  const GatedPeriod: int := 12
  const GateRatio: real := 0.35
  /** The ratio assumed when the ratio selector holds nothing usable. */
  const FallbackRatio: real := 0.3

  predicate PeriodShown(ratio: real, period: int)
  {
    ratio >= GateRatio || period != GatedPeriod
  }

  /**
   * The ratio the filter uses: the selected one, or 0.3 when the selection does not
   * parse or is 0 (JavaScript's `|| 0.3`).
   */
  function SelectedRatio(parsed: Option<real>): (ratio: real)
    ensures ratio != 0.0
    ensures parsed.Some? && parsed.value != 0.0 ==> ratio == parsed.value
    ensures parsed.None? || parsed.value == 0.0 ==> ratio == FallbackRatio
  {
    match parsed
    case Some(r) => if r != 0.0 then r else FallbackRatio
    case None => FallbackRatio
  }

  /** The configured periods that are offered, in their configured order. */
  function ShownPeriods(ratio: real, periods: seq<int>): (shown: seq<int>)
    ensures |shown| <= |periods|
    ensures forall p :: p in shown <==> p in periods && PeriodShown(ratio, p)
  {
    if periods == [] then []
    else
      var last := periods[|periods| - 1];
      ShownPeriods(ratio, periods[..|periods| - 1]) + (if PeriodShown(ratio, last) then [last] else [])
  }

  /** Filtering distributes over concatenation, so the offered periods keep their order. */
  lemma {:induction false} ShownPeriodsAppend(ratio: real, a: seq<int>, b: seq<int>)
    ensures ShownPeriods(ratio, a + b) == ShownPeriods(ratio, a) + ShownPeriods(ratio, b)
  {
    if b != [] {
      var b' := b[..|b| - 1];
      assert (a + b)[..|a + b| - 1] == a + b';
      ShownPeriodsAppend(ratio, a, b');
    } else {
      assert a + b == a;
    }
  }

  /** At or above the gate ratio every configured period is offered, in order. */
  lemma {:induction false} ShownPeriodsAllAboveGate(ratio: real, periods: seq<int>)
    requires ratio >= GateRatio
    ensures ShownPeriods(ratio, periods) == periods
  {
    if periods != [] {
      ShownPeriodsAllAboveGate(ratio, periods[..|periods| - 1]);
      assert periods[..|periods| - 1] + [periods[|periods| - 1]] == periods;
    }
  }

  /** Below the gate ratio exactly the occurrences of period 12 are dropped. */
  lemma {:induction false} ShownPeriodsBelowGate(ratio: real, periods: seq<int>)
    requires ratio < GateRatio
    ensures GatedPeriod !in ShownPeriods(ratio, periods)
    ensures |ShownPeriods(ratio, periods)| == |periods| - multiset(periods)[GatedPeriod]
  {
    if periods != [] {
      var init := periods[..|periods| - 1];
      ShownPeriodsBelowGate(ratio, init);
      assert periods == init + [periods[|periods| - 1]];
      assert multiset(periods) == multiset(init) + multiset{periods[|periods| - 1]};
    }
  }

  /**
   * The option-building loop: walk the configured periods and append each one the gate
   * lets through.
   */
  method LeasePeriodOptions(ratio: real, periods: seq<int>) returns (options: seq<int>)
    ensures options == ShownPeriods(ratio, periods)
  {
    options := [];
    var i := 0;
    while i < |periods|
      invariant 0 <= i <= |periods|
      invariant options == ShownPeriods(ratio, periods[..i])
    {
      var period := periods[i];
      if PeriodShown(ratio, period) {
        options := options + [period];
      }
      assert periods[..i + 1][..i] == periods[..i];
      i := i + 1;
    }
    assert periods[..i] == periods;
  }

  /** The two cases of the default period list [6, 10, 12]. */
  lemma DefaultPeriodsGated()
    ensures ShownPeriods(0.2, [6, 10, 12]) == [6, 10]
    ensures ShownPeriods(0.35, [6, 10, 12]) == [6, 10, 12]
  {
  }
}
