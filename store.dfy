/**
 * The ledger database as a value: whether the schema has been created, the three
 * tables, and the AUTOINCREMENT counter of `expenses`. Each mutator of the store is
 * one atomic transition on this value; each getter is a function of it.
 */
module Store {
  import opened Expenses

  /**
   * `nextId` is the id the next insert into `expenses` receives: one more than the
   * largest id ever issued, so the ids issued so far are exactly 1 .. nextId - 1.
   * `budgets` is keyed by its primary key, so a category has at most one budget.
   * `totalRows` holds the `budget_amount` of each `total_budget` row, in rowid order.
   */
  datatype Db = Db(hasSchema: bool, expenses: seq<Expense>, nextId: nat,
                   budgets: map<string, int>, totalRows: seq<int>)

  /** The store's invariant: increasing issued ids, a singleton total budget, no rows without tables. */
  predicate Valid(d: Db)
  {
    && d.nextId >= 1
    && IdsIncreasing(d.expenses)
    && (forall e :: e in d.expenses ==> 1 <= e.id < d.nextId)
    && |d.totalRows| <= 1
    && (!d.hasSchema ==> d.expenses == [] && d.budgets == map[] && d.totalRows == [] && d.nextId == 1)
  }

  /** Id `id` has been handed out by some insert into `expenses`, whether or not its row still exists. */
  predicate WasIssued(d: Db, id: nat)
  {
    1 <= id < d.nextId
  }

  /** A database file in which no table has been created yet. */
  function NoTables(): (d: Db)
    ensures Valid(d) && !d.hasSchema
  {
    Db(false, [], 1, map[], [])
  }

  /** `init_database`: three `CREATE TABLE IF NOT EXISTS`; rows already stored are never touched. */
  function InitDatabase(d: Db): (r: Db)
    requires Valid(d)
    ensures Valid(r) && r.hasSchema
    ensures r.expenses == d.expenses && r.budgets == d.budgets && r.totalRows == d.totalRows
    ensures r.nextId == d.nextId
  {
    d.(hasSchema := true)
  }

  lemma InitTwiceIsInitOnce(d: Db)
    requires Valid(d)
    ensures InitDatabase(InitDatabase(d)) == InitDatabase(d)
  {
  }

  /** `add_expense`: one `INSERT` with the id chosen by AUTOINCREMENT; no check on the values. */
  function AddExpense(d: Db, amount: int, category: string, description: Option<string>, date: int): (r: Db)
    requires Valid(d) && d.hasSchema
    ensures Valid(r) && r.hasSchema
    ensures |r.expenses| == |d.expenses| + 1 && r.expenses[..|d.expenses|] == d.expenses
    ensures var e := r.expenses[|d.expenses|];
      && e.amount == amount && e.category == category
      && e.description == description && e.date == date
      && !WasIssued(d, e.id) && WasIssued(r, e.id)
      && (forall i: nat :: WasIssued(d, i) ==> i < e.id)
    ensures r.budgets == d.budgets && r.totalRows == d.totalRows
  {
    var e := Expense(d.nextId, amount, category, description, date);
    assert forall x :: x in d.expenses + [e] ==> x in d.expenses || x == e;
    IncreasingSnoc(d.expenses, e);
    d.(expenses := d.expenses + [e], nextId := d.nextId + 1)
  }

  lemma IncreasingSnoc(es: seq<Expense>, x: Expense)
    requires IdsIncreasing(es)
    requires forall e :: e in es ==> e.id < x.id
    ensures IdsIncreasing(es + [x])
  {
    var r := es + [x];
    forall i, j | 0 <= i < j < |r| ensures r[i].id < r[j].id {
      assert r[i] == es[i];
      if j < |es| {
        assert r[j] == es[j];
      }
    }
  }

  /** Adding a row raises `get_total_expenses` by exactly its amount. */
  lemma AddRaisesTotalByAmount(d: Db, amount: int, category: string, description: Option<string>, date: int)
    requires Valid(d) && d.hasSchema
    ensures GetTotalExpenses(AddExpense(d, amount, category, description, date)) == GetTotalExpenses(d) + amount
  {
    var r := AddExpense(d, amount, category, description, date);
    var e := r.expenses[|d.expenses|];
    assert r.expenses == d.expenses + [e];
    SumAppend(d.expenses, [e]);
  }

  /**
   * Adding a row raises its own category's entry of `get_expenses_by_category` by its
   * amount (creating the entry if the category was new) and leaves every other entry as it was.
   */
  lemma AddRaisesOnlyItsCategory(d: Db, amount: int, category: string, description: Option<string>, date: int)
    requires Valid(d) && d.hasSchema
    ensures var before := GetExpensesByCategory(d);
      var after := GetExpensesByCategory(AddExpense(d, amount, category, description, date));
      && category in after
      && after[category] == (if category in before then before[category] else 0) + amount
      && (forall c :: c != category ==> (c in after <==> c in before))
      && (forall c :: c != category && c in before ==> after[c] == before[c])
  {
    var r := AddExpense(d, amount, category, description, date);
    var e := r.expenses[|d.expenses|];
    assert r.expenses == d.expenses + [e];
    assert e in r.expenses;
    assert forall x :: x in r.expenses <==> x in d.expenses || x == e;
    forall c ensures CategorySum(r.expenses, c) == CategorySum(d.expenses, c) + (if c == category then amount else 0) {
      CategorySumAppend(d.expenses, [e], c);
    }
    if !HasCategory(d.expenses, category) {
      AbsentCategorySumsToZero(d.expenses, category);
    }
  }

  /** `set_budget`: `INSERT OR REPLACE` keyed by category; no check on the amount. */
  function SetBudget(d: Db, category: string, amount: int): (r: Db)
    requires Valid(d) && d.hasSchema
    ensures Valid(r) && r.hasSchema
    ensures GetBudget(r, category) == amount && category in r.budgets
    ensures forall c :: c != category ==> (c in r.budgets <==> c in d.budgets)
    ensures forall c :: c != category ==> GetBudget(r, c) == GetBudget(d, c)
    ensures r.expenses == d.expenses && r.nextId == d.nextId && r.totalRows == d.totalRows
  {
    d.(budgets := d.budgets[category := amount])
  }

  lemma SetBudgetTwiceIsSetBudgetOnce(d: Db, category: string, amount: int)
    requires Valid(d) && d.hasSchema
    ensures SetBudget(SetBudget(d, category, amount), category, amount) == SetBudget(d, category, amount)
  {
  }

  /**
   * `set_total_budget`: `DELETE FROM total_budget`, then one `INSERT`, committed together.
   * Whatever the table held, it ends with exactly the one new row.
   */
  function SetTotalBudget(d: Db, amount: int): (r: Db)
    requires d.hasSchema
    ensures r.hasSchema && (Valid(d) ==> Valid(r))
    ensures r.totalRows == [amount] && GetTotalBudget(r) == amount
    ensures r.expenses == d.expenses && r.nextId == d.nextId && r.budgets == d.budgets
  {
    var cleared := d.(totalRows := []);
    cleared.(totalRows := cleared.totalRows + [amount])
  }

  /** Setting the total budget twice leaves one row, holding the second amount. */
  lemma SetTotalBudgetTwice(d: Db, first: int, second: int)
    requires d.hasSchema
    ensures SetTotalBudget(SetTotalBudget(d, first), second) == SetTotalBudget(d, second)
  {
  }

  /** `delete_expense`: `DELETE ... WHERE id = ?`; an id with no row is not an error. */
  function DeleteExpense(d: Db, id: nat): (r: Db)
    requires Valid(d) && d.hasSchema
    ensures Valid(r) && r.hasSchema
    ensures forall e :: e in r.expenses <==> e in d.expenses && e.id != id
    ensures (forall e :: e in d.expenses ==> e.id != id) ==> r == d
    ensures r.nextId == d.nextId && r.budgets == d.budgets && r.totalRows == d.totalRows
  {
    DeleteKeepsIdOrder(d.expenses, id);
    DeleteAbsentIsNoOp(d.expenses, id);
    d.(expenses := WithoutId(d.expenses, id))
  }

  lemma DeleteExpenseTwiceIsDeleteOnce(d: Db, id: nat)
    requires Valid(d) && d.hasSchema
    ensures DeleteExpense(DeleteExpense(d, id), id) == DeleteExpense(d, id)
  {
  }

  /** `delete_budget`: `DELETE ... WHERE category = ?`; an absent category is not an error. */
  function DeleteBudget(d: Db, category: string): (r: Db)
    requires Valid(d) && d.hasSchema
    ensures Valid(r) && r.hasSchema
    ensures category !in r.budgets && GetBudget(r, category) == 0
    ensures forall c :: c != category ==> (c in r.budgets <==> c in d.budgets)
    ensures forall c :: c != category ==> GetBudget(r, c) == GetBudget(d, c)
    ensures category !in d.budgets ==> r == d
    ensures r.expenses == d.expenses && r.nextId == d.nextId && r.totalRows == d.totalRows
  {
    d.(budgets := d.budgets - {category})
  }

  lemma DeleteBudgetTwiceIsDeleteOnce(d: Db, category: string)
    requires Valid(d) && d.hasSchema
    ensures DeleteBudget(DeleteBudget(d, category), category) == DeleteBudget(d, category)
  {
  }

  /** `get_total_budget`: `LIMIT 1` picks some row if there is one, and 0 stands for no row. */
  function GetTotalBudget(d: Db): (r: int)
    requires d.hasSchema
    ensures d.totalRows == [] ==> r == 0
    ensures d.totalRows != [] ==> r in d.totalRows
  {
    if d.totalRows == [] then 0 else d.totalRows[0]
  }

  /** `get_total_expenses`: `SUM(amount)`, read as 0 on an empty table. */
  function GetTotalExpenses(d: Db): (r: int)
    requires d.hasSchema
    ensures d.expenses == [] ==> r == 0
    ensures AllPositive(d.expenses) ==> r >= 0
  {
    NonNegativeSum(d.expenses);
    SumAmounts(d.expenses)
  }

  lemma {:induction false} NonNegativeSum(es: seq<Expense>)
    ensures AllPositive(es) ==> SumAmounts(es) >= 0
  {
    if es != [] {
      assert es[0] in es;
      assert forall e :: e in es[1..] ==> e in es;
      NonNegativeSum(es[1..]);
    }
  }

  /** `get_expenses_by_category`: one entry per category that occurs, holding that category's sum. */
  function GetExpensesByCategory(d: Db): (m: map<string, int>)
    requires d.hasSchema
    ensures forall c :: c in m <==> HasCategory(d.expenses, c)
    ensures forall c :: c in m ==> m[c] == CategorySum(d.expenses, c)
  {
    ExpensesByCategory(d.expenses)
  }

  /** `get_budget`: the stored amount for exactly this category, and 0 when it has no row. */
  function GetBudget(d: Db, category: string): (r: int)
    requires d.hasSchema
    ensures category !in d.budgets ==> r == 0
    ensures category in d.budgets ==> r == d.budgets[category]
  {
    if category in d.budgets then d.budgets[category] else 0
  }

  /** One call of a mutator of the store. */
  datatype Op =
    | Init
    | Add(amount: int, category: string, description: Option<string>, date: int)
    | PutBudget(category: string, amount: int)
    | PutTotalBudget(amount: int)
    | RemoveExpense(id: nat)
    | RemoveBudget(category: string)

  function Apply(d: Db, op: Op): (r: Db)
    requires Valid(d) && d.hasSchema
    ensures Valid(r) && r.hasSchema && r.nextId >= d.nextId
  {
    match op
    case Init => InitDatabase(d)
    case Add(amount, category, description, date) => AddExpense(d, amount, category, description, date)
    case PutBudget(category, amount) => SetBudget(d, category, amount)
    case PutTotalBudget(amount) => SetTotalBudget(d, amount)
    case RemoveExpense(id) => DeleteExpense(d, id)
    case RemoveBudget(category) => DeleteBudget(d, category)
  }

  /** The calls `ops`, one after another, each committed before the next. */
  function Run(d: Db, ops: seq<Op>): (r: Db)
    requires Valid(d) && d.hasSchema
    ensures Valid(r) && r.hasSchema
    ensures r.nextId >= d.nextId
    ensures forall i: nat :: WasIssued(d, i) ==> WasIssued(r, i)
    decreases ops
  {
    if ops == [] then d else Run(Apply(d, ops[0]), ops[1..])
  }

  /**
   * However many rows are added and deleted in between, the next `add_expense` gets
   * an id above every id issued before, deleted or not.
   */
  lemma IdsNeverReused(d: Db, ops: seq<Op>, amount: int, category: string, description: Option<string>, date: int)
    requires Valid(d) && d.hasSchema
    ensures var before := Run(d, ops);
      var after := AddExpense(before, amount, category, description, date);
      forall i: nat :: WasIssued(d, i) ==> i < after.expenses[|before.expenses|].id
  {
  }

  /** An add that got past the "amount > 0" guard. */
  predicate GuardedAdds(ops: seq<Op>)
  {
    forall k :: 0 <= k < |ops| && ops[k].Add? ==> ops[k].amount > 0
  }

  /** When every add has a positive amount, every stored amount stays positive. */
  lemma {:induction false} GuardedAddsKeepAmountsPositive(d: Db, ops: seq<Op>)
    requires Valid(d) && d.hasSchema && AllPositive(d.expenses)
    requires GuardedAdds(ops)
    ensures AllPositive(Run(d, ops).expenses)
    decreases ops
  {
    if ops != [] {
      var next := Apply(d, ops[0]);
      assert AllPositive(next.expenses) by {
        if ops[0].Add? {
          assert ops[0].amount > 0;
          forall e | e in next.expenses ensures e.amount > 0 {
            var k :| 0 <= k < |next.expenses| && next.expenses[k] == e;
            if k < |d.expenses| {
              assert next.expenses[..|d.expenses|][k] == e;
            }
          }
        }
      }
      assert GuardedAdds(ops[1..]) by {
        forall k | 0 <= k < |ops[1..]| && ops[1..][k].Add? ensures ops[1..][k].amount > 0 {
          assert ops[1..][k] == ops[k + 1];
        }
      }
      GuardedAddsKeepAmountsPositive(next, ops[1..]);
    }
  }
}
