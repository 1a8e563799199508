/**
 * The database behind one connection, as an object whose tables the store's
 * functions change in place. Each method is proved to perform exactly the
 * transition the matching function of `Store` describes.
 */
module LedgerDb {
  import opened Expenses
  import Store

  class Ledger {
    var hasSchema: bool
    var expenses: seq<Expense>
    var nextId: nat
    var budgets: map<string, int>
    var totalRows: seq<int>

    /** The current contents of the database file. */
    function State(): Store.Db
      reads this
    {
      Store.Db(hasSchema, expenses, nextId, budgets, totalRows)
    }

    ghost predicate Valid()
      reads this
    {
      Store.Valid(State())
    }

    /** `sqlite3.connect` on a file that holds no tables yet. */
    constructor Connect()
      ensures Valid() && State() == Store.NoTables()
    {
      hasSchema := false;
      expenses := [];
      nextId := 1;
      budgets := map[];
      totalRows := [];
    }

    method InitDatabase()
      requires Valid()
      modifies this
      ensures Valid() && hasSchema
      ensures State() == Store.InitDatabase(old(State()))
    {
      hasSchema := true;
    }

    method AddExpense(amount: int, category: string, description: Option<string>, date: int)
      requires Valid() && hasSchema
      modifies this
      ensures Valid() && hasSchema
      ensures State() == Store.AddExpense(old(State()), amount, category, description, date)
    {
      expenses := expenses + [Expense(nextId, amount, category, description, date)];
      nextId := nextId + 1;
    }

    method SetBudget(category: string, amount: int)
      requires Valid() && hasSchema
      modifies this
      ensures Valid() && hasSchema
      ensures State() == Store.SetBudget(old(State()), category, amount)
    {
      budgets := budgets[category := amount];
    }

    /** Two statements, a delete and an insert, committed together. */
    method SetTotalBudget(amount: int)
      requires Valid() && hasSchema
      modifies this
      ensures Valid() && hasSchema
      ensures State() == Store.SetTotalBudget(old(State()), amount)
    {
      totalRows := [];
      totalRows := totalRows + [amount];
    }

    method DeleteExpense(id: nat)
      requires Valid() && hasSchema
      modifies this
      ensures Valid() && hasSchema
      ensures State() == Store.DeleteExpense(old(State()), id)
    {
      DeleteKeepsIdOrder(expenses, id);
      expenses := WithoutId(expenses, id);
    }

    method DeleteBudget(category: string)
      requires Valid() && hasSchema
      modifies this
      ensures Valid() && hasSchema
      ensures State() == Store.DeleteBudget(old(State()), category)
    {
      budgets := budgets - {category};
    }
  }
}
