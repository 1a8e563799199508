/**
 * Rows of the `expenses` table and the aggregate queries over them:
 * `SUM(amount)`, `SUM(amount) ... GROUP BY category`, and `DELETE ... WHERE id = ?`
 * seen as a filter on the rows.
 */
module Expenses {

  datatype Option<T> = None | Some(value: T)

  /** One row of `expenses`. Amounts are integer minor units; dates are day ordinals. */
  datatype Expense = Expense(id: nat, amount: int, category: string, description: Option<string>, date: int)

  /** `SUM(amount)` over the rows, with SQL's NULL on no rows read as 0 (the `or 0` default). */
  function SumAmounts(es: seq<Expense>): int
  {
    if es == [] then 0 else es[0].amount + SumAmounts(es[1..])
  }

  /** The sum of the amounts of the rows whose category is exactly `c` (no normalisation). */
  function CategorySum(es: seq<Expense>, c: string): int
  {
    if es == [] then 0
    else (if es[0].category == c then es[0].amount else 0) + CategorySum(es[1..], c)
  }

  /** Some row carries category `c`. */
  predicate HasCategory(es: seq<Expense>, c: string)
  {
    exists e :: e in es && e.category == c
  }

  predicate Distinct(cs: seq<string>)
  {
    forall i, j :: 0 <= i < j < |cs| ==> cs[i] != cs[j]
  }

  /**
   * The groups of `GROUP BY category`, one per distinct category. SQL fixes no order
   * for the groups; this one is a choice of the model and nothing depends on it.
   */
  function GroupedCategories(es: seq<Expense>): (cs: seq<string>)
    ensures Distinct(cs)
    ensures forall c :: c in cs <==> HasCategory(es, c)
  {
    if es == [] then []
    else
      var rest := GroupedCategories(es[1..]);
      assert forall e :: e in es <==> e == es[0] || e in es[1..];
      if es[0].category in rest then rest else [es[0].category] + rest
  }

  /**
   * `dict(SELECT category, SUM(amount) FROM expenses GROUP BY category)`: exactly the
   * categories that occur in some row, each mapped to the sum of its rows.
   */
  function ExpensesByCategory(es: seq<Expense>): (m: map<string, int>)
    ensures forall c :: c in m <==> HasCategory(es, c)
    ensures forall c :: c in m ==> m[c] == CategorySum(es, c)
  {
    map c | c in GroupedCategories(es) :: CategorySum(es, c)
  }

  /** A category that occurs in no row sums to 0, so leaving it out of the map loses nothing. */
  lemma {:induction false} AbsentCategorySumsToZero(es: seq<Expense>, c: string)
    requires !HasCategory(es, c)
    ensures CategorySum(es, c) == 0
  {
    if es != [] {
      assert es[0] in es;
      assert !HasCategory(es[1..], c) by {
        forall e | e in es[1..] ensures e.category != c {
          assert e in es;
        }
      }
      AbsentCategorySumsToZero(es[1..], c);
    }
  }

  /** Ids strictly increase along the rows (the rowid order of an AUTOINCREMENT table). */
  predicate IdsIncreasing(es: seq<Expense>)
  {
    forall i, j :: 0 <= i < j < |es| ==> es[i].id < es[j].id
  }

  /** `DELETE FROM expenses WHERE id = ?`: keeps every row whose id differs, in order. */
  function WithoutId(es: seq<Expense>, id: nat): (r: seq<Expense>)
    ensures forall e :: e in r <==> e in es && e.id != id
    ensures |r| <= |es|
  {
    if es == [] then []
    else
      var rest := WithoutId(es[1..], id);
      assert forall e :: e in es <==> e == es[0] || e in es[1..];
      if es[0].id == id then rest else [es[0]] + rest
  }

  /** Deleting an id no row carries leaves the rows exactly as they were. */
  lemma {:induction false} DeleteAbsentIsNoOp(es: seq<Expense>, id: nat)
    ensures (forall e :: e in es ==> e.id != id) ==> WithoutId(es, id) == es
  {
    if es != [] && forall e :: e in es ==> e.id != id {
      assert es[0] in es;
      assert forall e :: e in es[1..] ==> e in es;
      DeleteAbsentIsNoOp(es[1..], id);
    }
  }

  lemma IncreasingTail(es: seq<Expense>)
    requires es != [] && IdsIncreasing(es)
    ensures IdsIncreasing(es[1..])
    ensures forall e :: e in es[1..] ==> es[0].id < e.id
  {
    forall e | e in es[1..] ensures es[0].id < e.id {
      var k :| 0 <= k < |es[1..]| && es[1..][k] == e;
      assert es[k + 1] == e;
    }
  }

  lemma IncreasingCons(x: Expense, rest: seq<Expense>)
    requires IdsIncreasing(rest)
    requires forall e :: e in rest ==> x.id < e.id
    ensures IdsIncreasing([x] + rest)
  {
    var r := [x] + rest;
    forall i, j | 0 <= i < j < |r| ensures r[i].id < r[j].id {
      if i == 0 {
        assert r[j] == rest[j - 1];
      } else {
        assert r[i] == rest[i - 1] && r[j] == rest[j - 1];
      }
    }
  }

  /** Deleting keeps the remaining rows in increasing id order. */
  lemma {:induction false} DeleteKeepsIdOrder(es: seq<Expense>, id: nat)
    requires IdsIncreasing(es)
    ensures IdsIncreasing(WithoutId(es, id))
  {
    if es != [] {
      IncreasingTail(es);
      DeleteKeepsIdOrder(es[1..], id);
      if es[0].id != id {
        IncreasingCons(es[0], WithoutId(es[1..], id));
      }
    }
  }

  /** Deleting an id twice leaves the same rows as deleting it once. */
  lemma DeleteTwiceIsDeleteOnce(es: seq<Expense>, id: nat)
    ensures WithoutId(WithoutId(es, id), id) == WithoutId(es, id)
  {
    DeleteAbsentIsNoOp(WithoutId(es, id), id);
  }

  /** Every stored amount is strictly positive. */
  predicate AllPositive(es: seq<Expense>)
  {
    forall e :: e in es ==> e.amount > 0
  }

  lemma {:induction false} SumAppend(a: seq<Expense>, b: seq<Expense>)
    ensures SumAmounts(a + b) == SumAmounts(a) + SumAmounts(b)
  {
    if a != [] {
      assert (a + b)[1..] == a[1..] + b;
      SumAppend(a[1..], b);
    } else {
      assert a + b == b;
    }
  }

  lemma {:induction false} CategorySumAppend(a: seq<Expense>, b: seq<Expense>, c: string)
    ensures CategorySum(a + b, c) == CategorySum(a, c) + CategorySum(b, c)
  {
    if a != [] {
      assert (a + b)[1..] == a[1..] + b;
      CategorySumAppend(a[1..], b, c);
    } else {
      assert a + b == b;
    }
  }

  /** What row `e` adds to the category sums over the categories `cs`. */
  function Share(e: Expense, cs: seq<string>): int
  {
    if cs == [] then 0
    else (if e.category == cs[0] then e.amount else 0) + Share(e, cs[1..])
  }

  /** The sum, over the categories `cs`, of each category's total. */
  function SumCategoryTotals(es: seq<Expense>, cs: seq<string>): int
  {
    if cs == [] then 0 else CategorySum(es, cs[0]) + SumCategoryTotals(es, cs[1..])
  }

  /** The sum of the values `m` holds at the keys `cs`, in that order. */
  function SumValuesAt(m: map<string, int>, cs: seq<string>): int
    requires forall c :: c in cs ==> c in m
  {
    if cs == [] then 0 else m[cs[0]] + SumValuesAt(m, cs[1..])
  }

  lemma {:induction false} ShareOnce(e: Expense, cs: seq<string>)
    requires Distinct(cs)
    ensures Share(e, cs) == if e.category in cs then e.amount else 0
  {
    if cs != [] {
      assert Distinct(cs[1..]) by {
        forall i, j | 0 <= i < j < |cs[1..]| ensures cs[1..][i] != cs[1..][j] {
          assert cs[1..][i] == cs[i + 1] && cs[1..][j] == cs[j + 1];
        }
      }
      ShareOnce(e, cs[1..]);
      if e.category == cs[0] {
        assert e.category !in cs[1..] by {
          forall k | 0 <= k < |cs[1..]| ensures cs[1..][k] != cs[0] {
            assert cs[1..][k] == cs[k + 1];
          }
        }
      } else {
        assert e.category in cs <==> e.category in cs[1..] by {
          assert cs == [cs[0]] + cs[1..];
        }
      }
    }
  }

  lemma {:induction false} SplitFirstRow(es: seq<Expense>, cs: seq<string>)
    requires es != []
    ensures SumCategoryTotals(es, cs) == Share(es[0], cs) + SumCategoryTotals(es[1..], cs)
  {
    if cs != [] {
      SplitFirstRow(es, cs[1..]);
    }
  }

  lemma {:induction false} NoRowsNoTotals(cs: seq<string>)
    ensures SumCategoryTotals([], cs) == 0
  {
    if cs != [] {
      NoRowsNoTotals(cs[1..]);
    }
  }

  /** Summing the per-category totals over a duplicate-free list of categories that covers every row gives the grand total. */
  lemma {:induction false} CategoryTotalsCoverAll(es: seq<Expense>, cs: seq<string>)
    requires Distinct(cs)
    requires forall e :: e in es ==> e.category in cs
    ensures SumCategoryTotals(es, cs) == SumAmounts(es)
  {
    if es == [] {
      NoRowsNoTotals(cs);
    } else {
      assert es[0] in es;
      assert forall e :: e in es[1..] ==> e in es;
      SplitFirstRow(es, cs);
      ShareOnce(es[0], cs);
      CategoryTotalsCoverAll(es[1..], cs);
    }
  }

  lemma {:induction false} ValuesAtAreCategoryTotals(es: seq<Expense>, cs: seq<string>)
    requires forall c :: c in cs ==> c in ExpensesByCategory(es)
    ensures SumValuesAt(ExpensesByCategory(es), cs) == SumCategoryTotals(es, cs)
  {
    if cs != [] {
      ValuesAtAreCategoryTotals(es, cs[1..]);
    }
  }

  /**
   * `get_total_expenses` equals the sum of the values of `get_expenses_by_category`,
   * whatever order the groups are listed in.
   */
  lemma TotalIsSumOfCategoryTotals(es: seq<Expense>, cs: seq<string>)
    requires Distinct(cs)
    requires forall c :: c in cs <==> c in ExpensesByCategory(es)
    ensures SumValuesAt(ExpensesByCategory(es), cs) == SumAmounts(es)
  {
    ValuesAtAreCategoryTotals(es, cs);
    forall e | e in es ensures e.category in cs {
      assert HasCategory(es, e.category);
    }
    CategoryTotalsCoverAll(es, cs);
  }
}
