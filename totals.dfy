/** The financial totals of lines 81-84 of `generate()`. */
module Totals {
  import opened Rows

  /** Python's `sum(e["amount"] for e in rows)`: 0 for no rows, otherwise added left to right. */
  function Sum(rows: seq<Row>): real {
    if rows == [] then 0.0 else Sum(rows[..|rows| - 1]) + rows[|rows| - 1].amount
  }

  /** Summing a concatenation is summing the parts. */
  lemma {:induction false} SumAppend(a: seq<Row>, b: seq<Row>)
    ensures Sum(a + b) == Sum(a) + Sum(b)
  {
    if b != [] {
      assert (a + b)[..|a + b| - 1] == a + b[..|b| - 1];
      SumAppend(a, b[..|b| - 1]);
    } else {
      assert a + b == a;
    }
  }

  datatype Totals = Totals(totalExpense: real, totalIncome: real, profitLoss: real, costPerAcre: real)

  /**
   * The four figures of the report: the two sums, income minus expense, and expense per acre,
   * where the division is guarded so that a non-positive acreage gives 0.
   */
  function ComputeTotals(expenses: seq<Row>, incomes: seq<Row>, totalAcres: real): (t: Totals)
    ensures t.totalExpense == Sum(expenses) && t.totalIncome == Sum(incomes)
    ensures t.profitLoss == t.totalIncome - t.totalExpense
    ensures totalAcres > 0.0 ==> t.costPerAcre * totalAcres == t.totalExpense
    ensures totalAcres <= 0.0 ==> t.costPerAcre == 0.0
  {
    var totalExpense := Sum(expenses);
    var totalIncome := Sum(incomes);
    Totals(totalExpense, totalIncome, totalIncome - totalExpense,
           if totalAcres > 0.0 then totalExpense / totalAcres else 0.0)
  }
}
