/**
 * Rate resolution and the rate table (product-calculator.js, lines 196-204, 398-409,
 * 510-516 and 607-634).
 *
 * The table is sparse and two-level: down-payment ratio, then lease period, then a
 * stored offset. The rate shown to the administrator and used in quotes is the stored
 * offset plus a baseline of 100; a cell that is missing, or that holds 0, falls back to
 * the configured interest rate.
 */
module Rates {
  import opened Wrappers

  type RateTable = map<real, map<int, real>>

  /** Stored rates are offsets from this baseline. */
  const RateBaseline: real := 100.0

  /** The stored offset of one cell, if the cell exists. */
  function Cell(table: RateTable, ratio: real, period: int): Option<real>
  {
    if ratio in table && period in table[ratio] then Some(table[ratio][period]) else None
  }

  /**
   * The rate a quote uses. The source tests the cell for JavaScript truthiness, so a
   * stored 0 falls back to the interest rate just like a missing cell.
   */
  function EffectiveRate(table: RateTable, interestRate: real, ratio: real, period: int): (rate: real)
    ensures Cell(table, ratio, period).Some? && Cell(table, ratio, period).value != 0.0 ==>
              rate == Cell(table, ratio, period).value + RateBaseline
    ensures Cell(table, ratio, period).None? || Cell(table, ratio, period).value == 0.0 ==>
              rate == interestRate + RateBaseline
  {
    if ratio in table && period in table[ratio] && table[ratio][period] != 0.0 then
      table[ratio][period] + RateBaseline
    else
      interestRate + RateBaseline
  }

  /**
   * The rate the configuration panel shows for a cell. Here the test is "is a number",
   * so a stored 0 is shown as the baseline itself.
   */
  function DisplayedRate(table: RateTable, interestRate: real, ratio: real, period: int): (rate: real)
    ensures Cell(table, ratio, period).Some? ==> rate == Cell(table, ratio, period).value + RateBaseline
    ensures Cell(table, ratio, period).None? ==> rate == interestRate + RateBaseline
  {
    if ratio in table && period in table[ratio] then table[ratio][period] + RateBaseline
    else interestRate + RateBaseline
  }

  /** The panel and the quote agree on every cell except one that stores 0. */
  lemma DisplayedMatchesEffective(table: RateTable, interestRate: real, ratio: real, period: int)
    ensures Cell(table, ratio, period) != Some(0.0) ==>
              DisplayedRate(table, interestRate, ratio, period) == EffectiveRate(table, interestRate, ratio, period)
    ensures Cell(table, ratio, period) == Some(0.0) ==>
              DisplayedRate(table, interestRate, ratio, period) == RateBaseline &&
              EffectiveRate(table, interestRate, ratio, period) == interestRate + RateBaseline
  {
  }

  /** The table after one cell is written, creating the ratio's row when it is absent. */
  function SetRate(table: RateTable, ratio: real, period: int, rate: real): (updated: RateTable)
    ensures Cell(updated, ratio, period) == Some(rate)
    ensures forall r, p :: (r != ratio || p != period) ==> Cell(updated, r, p) == Cell(table, r, p)
    ensures updated.Keys == table.Keys + {ratio}
  {
    var row := if ratio in table then table[ratio] else map[];
    table[ratio := row[period := rate]]
  }

  /**
   * Editing a displayed rate `d` stores `d - 100` in that cell only; afterwards the
   * panel shows `d`, and quotes use `d` unless `d` is the baseline itself.
   */
  lemma RateEditRoundTrip(table: RateTable, interestRate: real, ratio: real, period: int, displayed: real)
    ensures var updated := SetRate(table, ratio, period, displayed - RateBaseline);
      && Cell(updated, ratio, period) == Some(displayed - RateBaseline)
      && DisplayedRate(updated, interestRate, ratio, period) == displayed
      && (displayed != RateBaseline ==> EffectiveRate(updated, interestRate, ratio, period) == displayed)
      && (displayed == RateBaseline ==> EffectiveRate(updated, interestRate, ratio, period) == interestRate + RateBaseline)
  {
  }

  /** Writing one cell leaves the rate of every other (ratio, period) pair unchanged. */
  lemma SetRateKeepsOtherRates(table: RateTable, interestRate: real, ratio: real, period: int, rate: real, r: real, p: int)
    requires r != ratio || p != period
    ensures EffectiveRate(SetRate(table, ratio, period, rate), interestRate, r, p) == EffectiveRate(table, interestRate, r, p)
  {
  }

  /** One row of the default data: a ratio and its (period, stored offset) cells. */
  type RateRow = (real, seq<(int, real)>)

  /** The default rates, row by row, in the order the program lists them. */
  const DefaultRateData: seq<RateRow> := [
    (0.2,  [(6, 34.8), (10, 42.6), (12, 17.0)]),
    (0.3,  [(6, 32.5), (10, 37.3), (12, 47.3)]),
    (0.35, [(6, 31.8), (10, 37.3), (12, 46.8)]),
    (0.4,  [(6, 31.1), (10, 36.8), (12, 45.7)]),
    (0.45, [(6, 29.3), (10, 36.0), (12, 45.6)]),
    (0.5,  [(6, 27.2), (10, 32.9), (12, 44.8)])]

  /** A row's cells as a map; a later cell for the same period overrides an earlier one. */
  function RowMap(cells: seq<(int, real)>): map<int, real>
  {
    if cells == [] then map[] else RowMap(cells[..|cells| - 1])[cells[|cells| - 1].0 := cells[|cells| - 1].1]
  }

  /** The rows as a table; a later row for the same ratio replaces an earlier one. */
  function RowsTable(rows: seq<RateRow>): RateTable
  {
    if rows == [] then map[] else RowsTable(rows[..|rows| - 1])[rows[|rows| - 1].0 := RowMap(rows[|rows| - 1].1)]
  }

  /** A cell listed in the row is in the row's map, with the last value listed for its period. */
  lemma {:induction false} RowMapHas(cells: seq<(int, real)>, j: nat)
    requires j < |cells|
    requires forall k :: j < k < |cells| ==> cells[k].0 != cells[j].0
    ensures cells[j].0 in RowMap(cells) && RowMap(cells)[cells[j].0] == cells[j].1
  {
    if j < |cells| - 1 {
      RowMapHas(cells[..|cells| - 1], j);
    }
  }

  /** A row listed in the data is in the table, unless a later row has the same ratio. */
  lemma {:induction false} RowsTableHas(rows: seq<RateRow>, i: nat)
    requires i < |rows|
    requires forall k :: i < k < |rows| ==> rows[k].0 != rows[i].0
    ensures rows[i].0 in RowsTable(rows) && RowsTable(rows)[rows[i].0] == RowMap(rows[i].1)
  {
    if i < |rows| - 1 {
      RowsTableHas(rows[..|rows| - 1], i);
    }
  }

  /**
   * Filling the table from the default data: for each row a fresh inner map, then one
   * write per cell.
   */
  method BuildDefaultRateTable() returns (table: RateTable)
    ensures table == RowsTable(DefaultRateData)
  {
    table := map[];
    var i := 0;
    while i < |DefaultRateData|
      invariant 0 <= i <= |DefaultRateData|
      invariant table == RowsTable(DefaultRateData[..i])
    {
      var (ratio, cells) := DefaultRateData[i];
      ghost var before := table;
      table := table[ratio := map[]];
      var j := 0;
      while j < |cells|
        invariant 0 <= j <= |cells|
        invariant table == before[ratio := RowMap(cells[..j])]
      {
        var (period, rate) := cells[j];
        table := table[ratio := table[ratio][period := rate]];
        assert cells[..j + 1][..j] == cells[..j];
        j := j + 1;
      }
      assert cells[..j] == cells;
      assert DefaultRateData[..i + 1][..i] == DefaultRateData[..i];
      i := i + 1;
    }
    assert DefaultRateData[..i] == DefaultRateData;
  }

  /**
   * Every cell of the default data is in the default table with its listed offset, and
   * none of them is 0, so quotes on the default table never fall back for these cells.
   */
  lemma DefaultTableCells(interestRate: real, i: nat, j: nat)
    requires i < |DefaultRateData| && j < |DefaultRateData[i].1|
    ensures var (ratio, cells) := DefaultRateData[i];
      && Cell(RowsTable(DefaultRateData), ratio, cells[j].0) == Some(cells[j].1)
      && EffectiveRate(RowsTable(DefaultRateData), interestRate, ratio, cells[j].0) == cells[j].1 + RateBaseline
  {
    RowsTableHas(DefaultRateData, i);
    RowMapHas(DefaultRateData[i].1, j);
  }
}
