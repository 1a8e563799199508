# Expense tracker ledger store, modelled in Dafny

This project models the ledger store of the expense tracker: the SQLite database with
three tables that `exp_app.py` keeps. `expenses` holds the expense rows. `budgets` holds
one budget per category. `total_budget` is a table the application keeps to a single row.
The model covers the functions that create, change and query those tables. It also covers
the two pieces of the page logic in `main` that build on them: the "amount > 0" guard in
front of `add_expense`, and the pairing of each spent category with its budget in the
"Budget vs Actual Spending" chart.

Layout:

- `expenses.dfy`, module `Expenses`: the expense row. Also the aggregates over rows:
  `SUM(amount)`, the per-category sums of `GROUP BY category`, the dictionary
  `get_expenses_by_category` builds, and `DELETE ... WHERE id = ?` as a filter on the rows.
- `store.dfy`, module `Store`: the database as a value (`Db`) with its invariant (`Valid`).
  It has one function per mutator, each an atomic transition, and one function per getter.
  The trace functions `Apply`/`Run` and the lemmas about sequences of calls are here too.
- `ledger.dfy`, module `LedgerDb`: class `Ledger`, whose fields are the tables. Its methods
  change them in place and are proved to perform exactly the transitions of `Store`.
- `views.dfy`, module `Views`: the guarded add (a method on a `Ledger`) and the
  budget/actual pairing (a function of the state).

Modelling choices:

- Amounts are integers, read as minor currency units. Dates are integer day ordinals.
  A description is `Option<string>`, because the column is nullable.
- `nextId` is the AUTOINCREMENT counter. The ids issued so far are exactly `1 .. nextId - 1`,
  so a deleted row's id is never handed out again.
- `hasSchema` records whether `init_database` has run. Before it runs, no table exists and
  every other operation would fail in SQLite, so they all require it. `main` always calls
  `init_database` first.
- `add_expense` and `set_budget` accept any amount and any category, as the code does.
  The only positivity check is the caller's at `exp_app.py:139`. A category is an opaque,
  exactly matched string, so `"food"` and `"Food"` are two categories.
- SQL does not fix the order of `GROUP BY` groups, so the model fixes one. No property
  depends on that order. The sum lemma holds for every listing of the keys.
- `LIMIT 1` without `ORDER BY` returns an unspecified row. `GetTotalBudget` promises only
  "some row of the table, or 0 when it is empty". The singleton invariant (`Valid`: at most
  one row) then makes that value the row.

## Model

| member | source | states |
|---|---|---|
| `Expenses.GroupedCategories` | expense-tracker/exp_app.py:83-85 | the groups of `GROUP BY category` are duplicate-free and are exactly the categories that occur in some row |
| `Expenses.ExpensesByCategory` | expense-tracker/exp_app.py:81-87 | the dictionary's keys are exactly the categories of the stored rows (exact match); each value is the sum of that category's amounts |
| `Expenses.AbsentCategorySumsToZero` | expense-tracker/exp_app.py:81-87 | a category with no rows sums to 0, so it is absent from the dictionary rather than mapped to 0 |
| `Expenses.WithoutId` | expense-tracker/exp_app.py:97 | after `DELETE ... WHERE id = ?`, a row remains iff it was stored and its id differs; no row is added |
| `Expenses.DeleteAbsentIsNoOp` | expense-tracker/exp_app.py:96-98 | deleting an id that no row carries leaves the rows exactly as they were |
| `Expenses.DeleteKeepsIdOrder` | expense-tracker/exp_app.py:97 | deleting keeps the remaining rows' ids strictly increasing |
| `Expenses.DeleteTwiceIsDeleteOnce` | expense-tracker/exp_app.py:96-98 | deleting the same id twice gives the same rows as deleting it once |
| `Expenses.SumAppend` | expense-tracker/exp_app.py:77 | `SUM(amount)` over two batches of rows is the sum of the two batch sums |
| `Expenses.CategorySumAppend` | expense-tracker/exp_app.py:83-85 | a category's sum over two batches of rows is the sum of its two batch sums |
| `Expenses.CategoryTotalsCoverAll` | expense-tracker/exp_app.py:76-87 | summing category totals over a duplicate-free list that covers every row's category gives the grand total |
| `Expenses.TotalIsSumOfCategoryTotals` | expense-tracker/exp_app.py:76-87 | `get_total_expenses` equals the sum of the values of `get_expenses_by_category`, for any listing of its keys |
| `Store.NoTables` | expense-tracker/exp_app.py:9 | the database that connecting creates when `expense_tracker.db` does not exist yet: no schema, no rows, and the store invariant holds; on later runs the same call opens the stored tables and rows, which `Store.Db` values with `hasSchema` model |
| `Store.InitDatabase` | expense-tracker/exp_app.py:8-40 | the schema exists afterwards; every stored row and the id counter are unchanged, since each `CREATE TABLE IF NOT EXISTS` leaves existing tables alone |
| `Store.InitTwiceIsInitOnce` | expense-tracker/exp_app.py:8-40 | running `init_database` twice is the same as running it once |
| `Store.AddExpense` | expense-tracker/exp_app.py:43-48 | exactly one row is appended with the given amount, category, description and date, and all earlier rows are kept; its id was never issued before and exceeds every id ever issued; budgets are unchanged |
| `Store.AddRaisesTotalByAmount` | expense-tracker/exp_app.py:43-48 | after an add, `get_total_expenses` is the old total plus the new amount |
| `Store.AddRaisesOnlyItsCategory` | expense-tracker/exp_app.py:43-48 | after an add, the new row's category entry grows by its amount (and is created if new); every other entry is unchanged |
| `Store.SetBudget` | expense-tracker/exp_app.py:51-56 | `INSERT OR REPLACE`: afterwards `get_budget(c)` is the new amount; every other category keeps its budget and its presence; nothing else changes |
| `Store.SetBudgetTwiceIsSetBudgetOnce` | expense-tracker/exp_app.py:51-56 | setting the same budget twice is the same as setting it once |
| `Store.SetTotalBudget` | expense-tracker/exp_app.py:59-67 | delete-then-insert: the table ends with exactly one row holding the amount, however many rows it held (no invariant is assumed); `get_total_budget` then returns that amount; the store invariant is kept |
| `Store.SetTotalBudgetTwice` | expense-tracker/exp_app.py:59-67 | two calls leave one row, holding the second amount |
| `Store.DeleteExpense` | expense-tracker/exp_app.py:96-98 | only rows with that id disappear; an absent id leaves the database unchanged; the id counter does not go back |
| `Store.DeleteExpenseTwiceIsDeleteOnce` | expense-tracker/exp_app.py:96-98 | deleting an expense twice is the same as deleting it once |
| `Store.DeleteBudget` | expense-tracker/exp_app.py:101-103 | the category loses its budget, so `get_budget` gives 0; other categories are untouched; an absent category is a no-op |
| `Store.DeleteBudgetTwiceIsDeleteOnce` | expense-tracker/exp_app.py:101-103 | deleting a budget twice is the same as deleting it once |
| `Store.GetTotalBudget` | expense-tracker/exp_app.py:70-73 | 0 when the table is empty, otherwise the value of a stored row |
| `Store.GetTotalExpenses` | expense-tracker/exp_app.py:76-78 | 0 on an empty table; never negative while every amount is positive |
| `Store.NonNegativeSum` | expense-tracker/exp_app.py:77 | the sum of positive amounts is not negative |
| `Store.GetExpensesByCategory` | expense-tracker/exp_app.py:81-87 | keys are exactly the stored categories; each value is that category's sum |
| `Store.GetBudget` | expense-tracker/exp_app.py:90-93 | the stored amount for exactly this category, or 0 when it has no row |
| `Store.Apply` | expense-tracker/exp_app.py:43-103 | every mutator keeps the store invariant and never lowers the id counter |
| `Store.Run` | expense-tracker/exp_app.py:43-103 | any sequence of mutator calls keeps the invariant (increasing ids, at most one total-budget row) and keeps every issued id issued |
| `Store.IdsNeverReused` | expense-tracker/exp_app.py:15 | after any adds and deletes, the next add's id is above every id issued before them |
| `Store.GuardedAddsKeepAmountsPositive` | expense-tracker/exp_app.py:139-140 | when every add has a positive amount, every stored amount stays positive through any sequence of calls |
| `LedgerDb.Ledger.Connect` | expense-tracker/exp_app.py:9 | connecting when `expense_tracker.db` does not exist yet gives an empty file with no tables (the first run of the application) |
| `LedgerDb.Ledger.InitDatabase` | expense-tracker/exp_app.py:8-40 | changes the tables exactly as `Store.InitDatabase` does |
| `LedgerDb.Ledger.AddExpense` | expense-tracker/exp_app.py:43-48 | changes the tables exactly as `Store.AddExpense` does |
| `LedgerDb.Ledger.SetBudget` | expense-tracker/exp_app.py:51-56 | changes the tables exactly as `Store.SetBudget` does |
| `LedgerDb.Ledger.SetTotalBudget` | expense-tracker/exp_app.py:59-67 | its two statements together change the tables exactly as `Store.SetTotalBudget` does |
| `LedgerDb.Ledger.DeleteExpense` | expense-tracker/exp_app.py:96-98 | changes the tables exactly as `Store.DeleteExpense` does |
| `LedgerDb.Ledger.DeleteBudget` | expense-tracker/exp_app.py:101-103 | changes the tables exactly as `Store.DeleteBudget` does |
| `Views.SubmitExpense` | expense-tracker/exp_app.py:138-143 | adds the row iff the amount is positive, and otherwise leaves the ledger unchanged; keeps "every amount positive" |
| `Views.BudgetVsActual` | expense-tracker/exp_app.py:233-235 | each spent category appears once, with its budget (0 if none) and its spending; categories with a budget but no spending are absent |
| `Views.ActualsAreValuesAt` | expense-tracker/exp_app.py:234 | the spending column sums to the dictionary values at the listed categories |
| `Views.FoodScenario` | expense-tracker/exp_app.py:221-235 | two "Food" expenses of 250 and 100 with a "Food" budget of 300 give `{"Food": 350}`, a total of 350, a total budget of 0 and the single chart pair (300, 350) |
| `Views.ActualsSumToTotalExpenses` | expense-tracker/exp_app.py:233-235 | the spending bars add up to `get_total_expenses` |

## Left out

- The Streamlit page (`exp_app.py:106-254`) is left out: menus, forms, `st.metric`, the
  delete buttons and `st.experimental_rerun`. It is presentation. Only the amount guard
  and the budget/actual pairing are kept.
- The matplotlib pie and bar charts are left out. They are rendering, and the bar offsets
  are floating-point geometry.
- The pandas DataFrames are left out. They are built only for display.
- The `SELECT * FROM expenses ORDER BY date DESC` report query (`exp_app.py:150`) is left
  out. It only feeds the display table, and SQL fixes no order between rows of equal date.
- The `SELECT * FROM budgets` listing (`exp_app.py:198`) is left out. It is display only;
  its rows are the `budgets` map.
- Connection, cursor, `commit` and `close` are not modelled. Each function is one atomic
  transition on one connection. Crash and interruption behaviour is not modelled.
- `REAL` arithmetic is not modelled: amounts are exact integers, so rounding in `SUM`
  does not appear.
- Date parsing and `datetime.now()` are left out. A date is an abstract ordered integer.
- The ids of `total_budget` rows are not modelled. Nothing reads them.
- SQLite's dynamic typing is not modelled: a value of another type stored in `amount`,
  or a `NULL` category, which `NOT NULL` would reject.
- Storage failures (I/O errors, a full disk) are not modelled.
- Store.GetTotalBudget: when the table has rows, the contract promises only some stored
  row's value, not which one. `LIMIT 1` without `ORDER BY` does not fix the row.
  Under `Valid` there is at most one row, so the value is determined.
- Validation errors for a non-positive amount, a negative budget or an empty category are
  not modelled, because `add_expense`, `set_budget` and `set_total_budget` perform no such
  checks. The only check is the "amount > 0" guard in `main`, which is modelled.
- The order of rows with equal dates in a listing is not modelled. The code orders by date
  alone, and only in the display query left out above.
- AUTOINCREMENT exhaustion is not modelled. SQLite fails with SQLITE_FULL once id
  9223372036854775807 has been used; `nextId` is an unbounded `nat`.
- Store.DeleteExpense: the id is a `nat`, so a call with a negative id is not modelled.
  In the source such a call matches no row and changes nothing.
