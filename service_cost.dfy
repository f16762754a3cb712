/**
 * Tiered service-cost lookup (product-calculator.js, lines 11-42, 170-193 and 585-599).
 *
 * A price falls into one of 23 left-closed, right-open intervals whose lower bounds
 * ("floors") run from 1000 to 8700 in steps of 350; the fee is the one configured for
 * that floor. The floor list is declared once here and used by the lookup, the default
 * fee table and the repair that fills missing fees on load.
 */
module ServiceCost {

  /** The interval floors, ascending. */
  const Floors: seq<int> := [1000, 1350, 1700, 2050, 2400, 2750, 3100, 3450, 3800, 4150, 4500,
                             4850, 5200, 5550, 5900, 6250, 6600, 6950, 7300, 7650, 8000, 8350, 8700]

  const FirstFloor: int := 1000
  const FloorStep: int := 350
  /** The bound the interval-building loop runs up to (inclusive). */
  const FloorLimit: int := 9000

  /** The fee configured per floor when the program starts. */
  const DefaultServiceCost: map<int, real> := map[
    1000 := 320.0, 1350 := 290.0, 1700 := 270.0, 2050 := 230.0, 2400 := 250.0,
    2750 := 160.0, 3100 := 180.0, 3450 := 170.0, 3800 := 163.0, 4150 := 150.0,
    4500 := 170.0, 4850 := 150.0, 5200 := 158.0, 5550 := 130.0, 5900 := 6.0,
    6250 := 120.0, 6600 := 150.0, 6950 := 140.0, 7300 := 37.0, 7650 := 150.0,
    8000 := 180.0, 8350 := 210.0, 8700 := 236.0]

  /** The floors form an arithmetic progression, hence strictly increase. */
  lemma FloorsFormula()
    ensures |Floors| == 23
    ensures forall k :: 0 <= k < |Floors| ==> Floors[k] == FirstFloor + FloorStep * k
  {
  }

  lemma FloorsIncreasing(i: int, j: int)
    requires 0 <= i < j < |Floors|
    ensures Floors[i] < Floors[j]
  {
    FloorsFormula();
  }

  /**
   * The loop that builds the floor list: start at 1000 and push while the value is
   * at most 9000, stepping by 350. It yields exactly the shared constant.
   */
  method BuildIntervals() returns (intervals: seq<int>)
    ensures intervals == Floors
  {
    FloorsFormula();
    intervals := [];
    var i := FirstFloor;
    while i <= FloorLimit
      invariant |intervals| <= |Floors|
      invariant i == FirstFloor + FloorStep * |intervals|
      invariant intervals == Floors[..|intervals|]
    {
      intervals := intervals + [i];
      i := i + FloorStep;
    }
  }

  /** Whether `amount` lies in the interval that starts at floor number `i`. */
  predicate InInterval(amount: real, i: nat)
    requires i < |Floors|
  {
    Floors[i] as real <= amount && (i == |Floors| - 1 || amount < Floors[i + 1] as real)
  }

  /** The greatest floor index not above `top` whose floor does not exceed `amount`, or 0. */
  function BucketBelow(amount: real, top: nat): (i: nat)
    requires top < |Floors|
    ensures i <= top
    ensures 0 < i ==> Floors[i] as real <= amount
    ensures i < top ==> amount < Floors[i + 1] as real
  {
    if top == 0 || Floors[top] as real <= amount then top else BucketBelow(amount, top - 1)
  }

  /**
   * The index of the floor whose interval holds `amount`; amounts below the first
   * floor fall back to index 0.
   */
  function Bucket(amount: real): (i: nat)
    ensures i < |Floors|
    ensures 0 < i ==> Floors[i] as real <= amount
    ensures i < |Floors| - 1 ==> amount < Floors[i + 1] as real
  {
    BucketBelow(amount, |Floors| - 1)
  }

  /**
   * The bucketing is left-closed and right-open: an amount in interval `i` resolves to
   * floor `i`, and an amount below the first floor resolves to the first floor.
   */
  lemma BucketIs(amount: real, i: nat)
    requires i < |Floors|
    requires InInterval(amount, i) || (i == 0 && amount < Floors[0] as real)
    ensures Bucket(amount) == i
  {
    var b := Bucket(amount);
    if b < i {
      FloorsIncreasing(b, i);
      if b + 1 < i { FloorsIncreasing(b + 1, i); }
    } else if i < b {
      FloorsIncreasing(i, b);
      if i + 1 < b { FloorsIncreasing(i + 1, b); }
    }
  }

  /** Amounts at or above the last floor use the last floor's fee. */
  lemma BucketAboveLast(amount: real)
    requires amount >= Floors[|Floors| - 1] as real
    ensures Bucket(amount) == |Floors| - 1
  {
    BucketIs(amount, |Floors| - 1);
  }

  /**
   * The fee for `amount`: the fee configured for its floor, or 0 when that floor has
   * none (a stored 0 also yields 0).
   */
  function ServiceCostFee(serviceCost: map<int, real>, amount: real): (fee: real)
    ensures forall i :: 0 <= i < |Floors| && InInterval(amount, i) ==> fee == FloorFee(serviceCost, Floors[i])
    ensures amount < Floors[0] as real ==> fee == FloorFee(serviceCost, Floors[0])
  {
    FloorFee(serviceCost, Floors[Bucket(amount)])
  }

  /** The fee configured for a floor, 0 when it has none. */
  function FloorFee(serviceCost: map<int, real>, floor: int): real
  {
    if floor in serviceCost then serviceCost[floor] else 0.0
  }

  /**
   * The lookup as the program runs it: scan the floors in order, stop at the first
   * interval holding the amount (the last one is unbounded above), then clamp to the
   * last floor for large amounts and read the fee, 0 when unset.
   */
  method CalculateServiceCost(amount: real, serviceCost: map<int, real>) returns (fee: real)
    ensures fee == ServiceCostFee(serviceCost, amount)
    ensures amount >= Floors[|Floors| - 1] as real ==> fee == FloorFee(serviceCost, Floors[|Floors| - 1])
    ensures amount < Floors[1] as real ==> fee == FloorFee(serviceCost, Floors[0])
  {
    var interval := FirstFloor;
    var ranges := Floors;
    ghost var hit := false;
    var i := 0;
    while i < |ranges|
      invariant 0 <= i <= |ranges|
      invariant !hit && interval == Floors[0]
      invariant forall j :: 0 <= j < i ==> !InInterval(amount, j)
    {
      var currentRange := ranges[i];
      if amount >= currentRange as real && (i == |ranges| - 1 || amount < ranges[i + 1] as real) {
        BucketIs(amount, i);
        interval := currentRange;
        hit := true;
        break;
      }
      i := i + 1;
    }
    if !hit {
      assert !InInterval(amount, Bucket(amount));
      BucketIs(amount, 0);
    }
    assert interval == Floors[Bucket(amount)];
    if amount >= ranges[|ranges| - 1] as real {
      BucketAboveLast(amount);
      interval := ranges[|ranges| - 1];
    }
    fee := if interval in serviceCost then serviceCost[interval] else 0.0;
    if amount < Floors[1] as real {
      BucketIs(amount, 0);
    }
  }

  /** Every floor has a default fee, and the default table holds nothing else. */
  lemma DefaultServiceCostCoversFloors()
    ensures DefaultServiceCost.Keys == set f | f in Floors
  {
  }

  /** JavaScript's Math.round on a real: round half up. */
  function RoundHalfUp(x: real): (r: int)
    ensures r as real - 0.5 <= x < r as real + 0.5
  {
    (x + 0.5).Floor
  }

  /**
   * The fee a floor gets on load when the saved settings lack one: the value of the
   * floor's input field when the page has one, otherwise 1% of the floor, rounded.
   */
  function MissingFee(costInputs: map<int, real>, floor: int): (fee: real)
    ensures floor in costInputs ==> fee == costInputs[floor]
    ensures floor !in costInputs ==> fee == fee.Floor as real && fee - 0.5 <= floor as real / 100.0 < fee + 0.5
  {
    if floor in costInputs then costInputs[floor] else RoundHalfUp(floor as real * 0.01) as real
  }

  /**
   * The repair loop run on loaded settings: every floor without a fee gets one.
   * Fees already present are kept, and no other key is added.
   */
  method RepairServiceCost(serviceCost: map<int, real>, costInputs: map<int, real>) returns (repaired: map<int, real>)
    ensures repaired.Keys == serviceCost.Keys + set f | f in Floors
    ensures forall k :: k in serviceCost ==> repaired[k] == serviceCost[k]
    ensures forall f :: f in Floors && f !in serviceCost ==> repaired[f] == MissingFee(costInputs, f)
  {
    repaired := serviceCost;
    var i := 0;
    while i < |Floors|
      invariant 0 <= i <= |Floors|
      invariant repaired.Keys == serviceCost.Keys + set j | 0 <= j < i :: Floors[j]
      invariant forall k :: k in serviceCost ==> repaired[k] == serviceCost[k]
      invariant forall j :: 0 <= j < i && Floors[j] !in serviceCost ==> repaired[Floors[j]] == MissingFee(costInputs, Floors[j])
    {
      var min := Floors[i];
      if min !in repaired {
        repaired := repaired[min := MissingFee(costInputs, min)];
      }
      i := i + 1;
    }
    assert (set j | 0 <= j < |Floors| :: Floors[j]) == set f | f in Floors;
  }
}
