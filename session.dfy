/** A page session driven through the ledger's operations, with the panel figures it ends up showing. */
module Session {
  import opened Wrappers
  import opened Transactions
  import opened Store
  import Text
  import Aggregates
  import Money

  /** From an empty slot: salary 5000, then rent -1500; the panel shows 3500, 5000 and -1500. */
  method SalaryAndRent(salary: string, rent: string) returns (ledger: Ledger)
    requires salary != [] && !Text.IsWhitespace(salary[0]) && !Text.IsWhitespace(salary[|salary| - 1])
    requires rent != [] && !Text.IsWhitespace(rent[0]) && !Text.IsWhitespace(rent[|rent| - 1])
    ensures ledger.transactions == [Transaction(1, salary, 5000.0), Transaction(2, rent, -1500.0)]
    ensures ledger.Persisted()
    ensures Aggregates.Summarize(ledger.transactions) == Aggregates.Totals(3500.0, 5000.0, -1500.0)
  {
    ledger := new Ledger(None);
    Text.TrimUnchanged(salary);
    var ok := ledger.Add(salary, Number(5000.0), 1);
    assert ok;
    Text.TrimUnchanged(rent);
    ok := ledger.Add(rent, Number(-1500.0), 2);
    assert ok;
    SalaryAndRentTotals(salary, rent);
  }

  /** The panel figures for that list: balance 3500, income 5000, expense -1500. */
  lemma SalaryAndRentTotals(salary: string, rent: string)
    ensures Aggregates.Summarize([Transaction(1, salary, 5000.0), Transaction(2, rent, -1500.0)])
         == Aggregates.Totals(3500.0, 5000.0, -1500.0)
  {
    var salaryTx, rentTx := Transaction(1, salary, 5000.0), Transaction(2, rent, -1500.0);
    assert Aggregates.Summarize([]) == Aggregates.Totals(0.0, 0.0, 0.0);
    Aggregates.SummarizeAppend([], salaryTx);
    assert [] + [salaryTx] == [salaryTx];
    Aggregates.SummarizeAppend([salaryTx], rentTx);
    assert [salaryTx] + [rentTx] == [salaryTx, rentTx];
  }

  /**
    The panel texts for that list: "R3500.00" for the balance, "R5000.00" for
    the income and "-R1500.00" for the expense.
   */
  lemma SalaryAndRentDisplay(salary: string, rent: string)
    ensures Aggregates.Display([Transaction(1, salary, 5000.0), Transaction(2, rent, -1500.0)])
         == Aggregates.Labels("R3500.00", "R5000.00", "-R1500.00")
  {
    var list := [Transaction(1, salary, 5000.0), Transaction(2, rent, -1500.0)];
    SalaryAndRentTotals(salary, rent);
    assert Aggregates.Display(list)
        == Aggregates.Labels(Money.BalanceLabel(3500.0), Money.IncomeLabel(5000.0), Money.ExpenseLabel(-1500.0));
    PanelFigures();
  }

  /** The three panel texts for the figures of that session. */
  lemma PanelFigures()
    ensures Money.BalanceLabel(3500.0) == "R3500.00"
    ensures Money.IncomeLabel(5000.0) == "R5000.00"
    ensures Money.ExpenseLabel(-1500.0) == "-R1500.00"
  {
    FixedOf3500();
    FixedOf5000();
    FixedOf1500();
  }

  lemma FixedOf3500()
    ensures Money.Fixed(3500.0) == "3500.00"
  {
    FixedOfFourDigits(3, 5, 0, 0);
  }

  lemma FixedOf5000()
    ensures Money.Fixed(5000.0) == "5000.00"
  {
    FixedOfFourDigits(5, 0, 0, 0);
  }

  lemma FixedOf1500()
    ensures Money.Fixed(1500.0) == "1500.00"
  {
    FixedOfFourDigits(1, 5, 0, 0);
  }

  /** toFixed(2) of a whole number of four digits. */
  lemma FixedOfFourDigits(a: nat, b: nat, c: nat, d: nat)
    requires 1 <= a < 10 && b < 10 && c < 10 && d < 10
    ensures Money.Fixed((1000 * a + 100 * b + 10 * c + d) as real)
         == [Money.DigitChar(a), Money.DigitChar(b), Money.DigitChar(c), Money.DigitChar(d)] + ".00"
  {
    Money.NatDigitsAppend(a, b);
    Money.NatDigitsAppend(10 * a + b, c);
    Money.NatDigitsAppend(100 * a + 10 * b + c, d);
    Money.FixedOfWhole(1000 * a + 100 * b + 10 * c + d);
  }

  /**
    Then a NaN amount is refused, an unknown id removes nothing, and a
    confirmed clear, done twice, leaves the list empty and saved.
   */
  method RefuseRemoveClear(ledger: Ledger) returns (accepted: bool, kept: seq<Transaction>)
    requires ledger.Persisted()
    requires forall t :: t in ledger.transactions ==> t.id != 7
    modifies ledger
    ensures !accepted
    ensures kept == old(ledger.transactions)
    ensures ledger.transactions == [] && ledger.Persisted()
  {
    accepted := ledger.Add("coffee", NaN, 3);
    ledger.Remove(7);
    kept := ledger.transactions;
    ledger.Clear(true);
    ledger.Clear(true);
  }
}
