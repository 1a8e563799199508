/**
 * The two pieces of the application's page logic that rest on the store: the
 * "Add Expense" button, which only passes a positive amount on, and the
 * "Budget vs Actual Spending" pairing of each spent category with its budget.
 */
module Views {
  import opened Expenses
  import Store
  import LedgerDb

  /**
   * The "Add Expense" button: a positive amount is added, anything else is refused
   * with an error message and the ledger is left as it was.
   */
  method SubmitExpense(ledger: LedgerDb.Ledger, amount: int, category: string,
                       description: Option<string>, date: int) returns (added: bool)
    requires ledger.Valid() && ledger.hasSchema
    modifies ledger
    ensures ledger.Valid() && ledger.hasSchema
    ensures added <==> amount > 0
    ensures ledger.State() == if added
      then Store.AddExpense(old(ledger.State()), amount, category, description, date)
      else old(ledger.State())
    ensures AllPositive(old(ledger.expenses)) ==> AllPositive(ledger.expenses)
  {
    added := amount > 0;
    if added {
      ledger.AddExpense(amount, category, description, date);
      ghost var before := old(ledger.expenses);
      forall e | e in ledger.expenses && AllPositive(before) ensures e.amount > 0 {
        var k :| 0 <= k < |ledger.expenses| && ledger.expenses[k] == e;
        if k < |before| {
          assert ledger.expenses[..|before|][k] == e;
        }
      }
    }
  }

  /** One bar pair of the chart: a category, its budget and what was spent on it. */
  datatype BudgetLine = BudgetLine(category: string, budget: int, actual: int)

  /** The categories of `lines`, in order. */
  function CategoriesOf(lines: seq<BudgetLine>): (cs: seq<string>)
    ensures |cs| == |lines|
    ensures forall i :: 0 <= i < |lines| ==> cs[i] == lines[i].category
  {
    if lines == [] then [] else [lines[0].category] + CategoriesOf(lines[1..])
  }

  /**
   * The data of the "Budget vs Actual Spending" chart: the categories of the
   * per-category sums, in the dictionary's order, each with its spending and with the
   * budget read back for it, or 0 where it has none. A category with a budget but no
   * spending does not appear.
   */
  function BudgetVsActual(d: Store.Db): (lines: seq<BudgetLine>)
    requires d.hasSchema
    ensures Distinct(CategoriesOf(lines))
    ensures forall c :: c in CategoriesOf(lines) <==> HasCategory(d.expenses, c)
    ensures forall i :: 0 <= i < |lines| ==>
      lines[i].budget == (if lines[i].category in d.budgets then d.budgets[lines[i].category] else 0)
    ensures forall i :: 0 <= i < |lines| ==> lines[i].actual == CategorySum(d.expenses, lines[i].category)
  {
    var byCategory := Store.GetExpensesByCategory(d);
    var categories := GroupedCategories(d.expenses);
    var lines := seq(|categories|, i requires 0 <= i < |categories| =>
      BudgetLine(categories[i], Store.GetBudget(d, categories[i]), byCategory[categories[i]]));
    assert CategoriesOf(lines) == categories;
    lines
  }

  /** The sum of the spending column of the chart. */
  function SumActuals(lines: seq<BudgetLine>): int
  {
    if lines == [] then 0 else lines[0].actual + SumActuals(lines[1..])
  }

  lemma {:induction false} ActualsAreValuesAt(lines: seq<BudgetLine>, m: map<string, int>)
    requires forall c :: c in CategoriesOf(lines) ==> c in m
    requires forall i :: 0 <= i < |lines| ==> lines[i].actual == m[lines[i].category]
    ensures SumActuals(lines) == SumValuesAt(m, CategoriesOf(lines))
  {
    if lines != [] {
      assert CategoriesOf(lines)[1..] == CategoriesOf(lines[1..]);
      assert forall i :: 0 <= i < |lines[1..]| ==> lines[1..][i] == lines[i + 1];
      ActualsAreValuesAt(lines[1..], m);
    }
  }

  /** The spending bars add up to `get_total_expenses`: no spending is lost or counted twice. */
  lemma ActualsSumToTotalExpenses(d: Store.Db)
    requires d.hasSchema
    ensures SumActuals(BudgetVsActual(d)) == Store.GetTotalExpenses(d)
  {
    var lines := BudgetVsActual(d);
    var m := ExpensesByCategory(d.expenses);
    ActualsAreValuesAt(lines, m);
    TotalIsSumOfCategoryTotals(d.expenses, CategoriesOf(lines));
  }

  /**
   * Two "Food" expenses of 250 and 100 and a "Food" budget of 300, on a new file:
   * the chart shows one pair (300, 350), the total is 350 and no total budget reads as 0.
   */
  lemma FoodScenario()
    ensures var d0 := Store.InitDatabase(Store.NoTables());
      var d1 := Store.AddExpense(d0, 250, "Food", None, 19723);
      var d2 := Store.AddExpense(d1, 100, "Food", None, 19724);
      var d3 := Store.SetBudget(d2, "Food", 300);
      && Store.GetExpensesByCategory(d3) == map["Food" := 350]
      && Store.GetTotalExpenses(d3) == 350
      && Store.GetTotalBudget(d3) == 0
      && BudgetVsActual(d3) == [BudgetLine("Food", 300, 350)]
  {
    var d0 := Store.InitDatabase(Store.NoTables());
    var d1 := Store.AddExpense(d0, 250, "Food", None, 19723);
    var d2 := Store.AddExpense(d1, 100, "Food", None, 19724);
    var d3 := Store.SetBudget(d2, "Food", 300);
    assert d3.expenses == [Expense(1, 250, "Food", None, 19723), Expense(2, 100, "Food", None, 19724)];
    var es := d3.expenses;
    assert es[1..][1..] == [];
    assert GroupedCategories(es[1..]) == ["Food"];
    assert GroupedCategories(es) == ["Food"];
  }
}
