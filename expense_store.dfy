/** The expenses table and its repository (src/expenses/repositories/expenses.repository.ts). */
module ExpenseStore {
  import opened Common
  import opened Text
  import opened Calendar
  import opened Sums

  /** A row of the expenses table. */
  datatype Expense = Expense(
    id: Id,
    userId: Id,
    description: string,
    amount: real,
    category: string,
    expenseDate: Timestamp,
    isRecurring: bool,
    recurrencePeriod: Option<string>)

  /** The data a create request carries. */
  datatype NewExpense = NewExpense(
    description: string,
    amount: real,
    category: string,
    expenseDate: Option<Timestamp>,
    isRecurring: Option<bool>,
    recurrencePeriod: Option<string>)

  /** The data an update request carries: only the supplied fields are set;
      the recurrence period may be supplied as null. */
  datatype ExpensePatch = ExpensePatch(
    description: Patch<string>,
    amount: Patch<real>,
    category: Patch<string>,
    expenseDate: Patch<Timestamp>,
    isRecurring: Patch<bool>,
    recurrencePeriod: Patch<Option<string>>)

  /** The row `create` saves: description and category trimmed, the date
      defaulting to now, `isRecurring || false`, `recurrencePeriod || null`. */
  function NewExpenseRow(id: Id, userId: Id, data: NewExpense, now: Timestamp): (e: Expense)
    ensures e.id == id && e.userId == userId && e.amount == data.amount
    ensures e.description == Trim(data.description) && e.category == Trim(data.category)
    ensures e.expenseDate == (if data.expenseDate.Some? then data.expenseDate.value else now)
    ensures e.isRecurring <==> data.isRecurring == Some(true)
    ensures e.recurrencePeriod.None? <==> Falsy(data.recurrencePeriod)
  {
    Expense(id, userId, Trim(data.description), data.amount, Trim(data.category),
            data.expenseDate.GetOr(now), data.isRecurring.GetOr(false), OrNull(data.recurrencePeriod))
  }

  /** The row `update` saves: each supplied field assigned, description and
      category trimmed; the recurrence period is assigned as given, null and
      "" included. */
  function PatchedExpense(e: Expense, patch: ExpensePatch): Expense {
    Expense(e.id, e.userId,
            TrimmedApply(patch.description, e.description),
            patch.amount.Apply(e.amount),
            TrimmedApply(patch.category, e.category),
            patch.expenseDate.Apply(e.expenseDate),
            patch.isRecurring.Apply(e.isRecurring),
            patch.recurrencePeriod.Apply(e.recurrencePeriod))
  }

  /** Sending the same update twice stores the same row as sending it once. */
  lemma PatchedExpenseIdempotent(e: Expense, patch: ExpensePatch)
    ensures PatchedExpense(PatchedExpense(e, patch), patch) == PatchedExpense(e, patch)
  {
    TrimmedApplyIdempotent(patch.description, e.description);
    TrimmedApplyIdempotent(patch.category, e.category);
  }

  /** The owner-scoped lookup of an expense. */
  predicate OwnsExpense(rows: map<Id, Expense>, id: Id, userId: Id) {
    id in rows && rows[id].userId == userId
  }

  /** The rows `find({ where: { id: In(ids), userId } })` returns, by id. */
  function OwnedAmong(rows: map<Id, Expense>, ids: seq<Id>, userId: Id): set<Id> {
    set id | id in ids && id in rows && rows[id].userId == userId
  }

  /** A subset is no larger than its superset. */
  lemma SubsetCardinality<T>(a: set<T>, b: set<T>)
    requires a <= b
    ensures |a| <= |b|
  {
    assert b == a + (b - a);
  }

  /** bulkDelete's count check: the number of the user's rows among `ids`
      equals `ids.length` exactly when the ids are pairwise distinct and all
      name rows of the user. */
  lemma {:induction false} CountCheck(rows: map<Id, Expense>, ids: seq<Id>, userId: Id)
    ensures |OwnedAmong(rows, ids, userId)| == |ids|
            <==> Distinct(ids) && forall k :: 0 <= k < |ids| ==> OwnsExpense(rows, ids[k], userId)
  {
    var all := set id | id in ids;
    var found := OwnedAmong(rows, ids, userId);
    SetOfSeqBound(ids);
    SubsetCardinality(found, all);
    if Distinct(ids) {
      DistinctCardinality(ids);
    } else {
      RepeatedCardinality(ids);
    }
    if k :| 0 <= k < |ids| && !OwnsExpense(rows, ids[k], userId) {
      SubsetCardinality(found, all - {ids[k]});
    } else {
      assert found == all;
    }
  }

  /** The amounts of the user's expenses dated inside the month's window. */
  function MonthlyExpenses(rows: map<Id, Expense>, userId: Id, year: int, month: int): map<Id, real> {
    map id | id in rows && rows[id].userId == userId && InMonth(rows[id].expenseDate, year, month) :: rows[id].amount
  }

  /** What getMonthlyTotal returns. */
  ghost function MonthlyTotal(rows: map<Id, Expense>, userId: Id, year: int, month: int): real {
    SumMap(MonthlyExpenses(rows, userId, year, month))
  }

  /** Storing a new expense adds its amount to its owner's total for the
      month it is dated in, and to no other total. */
  lemma MonthlyTotalAfterInsert(rows: map<Id, Expense>, e: Expense, userId: Id, year: int, month: int)
    requires e.id !in rows
    ensures MonthlyTotal(rows[e.id := e], userId, year, month)
            == MonthlyTotal(rows, userId, year, month)
               + (if e.userId == userId && InMonth(e.expenseDate, year, month) then e.amount else 0.0)
  {
    var before := MonthlyExpenses(rows, userId, year, month);
    var after := MonthlyExpenses(rows[e.id := e], userId, year, month);
    if e.userId == userId && InMonth(e.expenseDate, year, month) {
      assert after == before[e.id := e.amount];
      SumMapInsert(before, e.id, e.amount);
    } else {
      assert after == before;
    }
  }

  class ExpensesRepository {
    var rows: map<Id, Expense>

    /** Each row is stored under its own id. */
    ghost predicate Valid()
      reads this
    {
      forall id :: id in rows ==> rows[id].id == id
    }

    constructor ()
      ensures Valid() && rows == map[]
    {
      rows := map[];
    }

    /** findById: the row only when both id and owner match. */
    method FindById(id: Id, userId: Id) returns (r: Option<Expense>)
      ensures r.Some? <==> OwnsExpense(rows, id, userId)
      ensures r.Some? ==> r.value == rows[id]
    {
      if id in rows && rows[id].userId == userId {
        r := Some(rows[id]);
      } else {
        r := None;
      }
    }

    /** create: inserts the row under the generated id. */
    method Create(userId: Id, data: NewExpense, id: Id, now: Timestamp) returns (e: Expense)
      requires Valid() && id !in rows
      modifies this
      ensures Valid()
      ensures e == NewExpenseRow(id, userId, data, now) && rows == old(rows)[id := e]
    {
      e := Expense(id, userId, Trim(data.description), data.amount, Trim(data.category),
                   data.expenseDate.GetOr(now), data.isRecurring.GetOr(false), OrNull(data.recurrencePeriod));
      rows := rows[id := e];
    }

    /** update: fails when the user owns no such row; otherwise assigns each
        supplied field and keeps all others. */
    method Update(id: Id, userId: Id, patch: ExpensePatch) returns (r: Result<Expense>)
      requires Valid()
      modifies this
      ensures Valid()
      ensures !OwnsExpense(old(rows), id, userId) ==> r == Err(ExpenseMissing) && rows == old(rows)
      ensures OwnsExpense(old(rows), id, userId) ==>
                r == Ok(PatchedExpense(old(rows)[id], patch)) && rows == old(rows)[id := r.value]
    {
      var found := FindById(id, userId);
      if found.None? {
        return Err(ExpenseMissing);
      }
      var expense := found.value;
      var description, amount, category := expense.description, expense.amount, expense.category;
      var expenseDate, isRecurring, recurrencePeriod := expense.expenseDate, expense.isRecurring, expense.recurrencePeriod;
      if patch.description.Set? { description := Trim(patch.description.value); }
      if patch.amount.Set? { amount := patch.amount.value; }
      if patch.category.Set? { category := Trim(patch.category.value); }
      if patch.expenseDate.Set? { expenseDate := patch.expenseDate.value; }
      if patch.isRecurring.Set? { isRecurring := patch.isRecurring.value; }
      if patch.recurrencePeriod.Set? { recurrencePeriod := patch.recurrencePeriod.value; }
      expense := Expense(expense.id, expense.userId, description, amount, category,
                         expenseDate, isRecurring, recurrencePeriod);
      rows := rows[id := expense];
      r := Ok(expense);
    }

    /** delete: removes the row, or fails when the user owns no such row. */
    method Delete(id: Id, userId: Id) returns (r: Outcome)
      requires Valid()
      modifies this
      ensures Valid()
      ensures r.Pass? <==> OwnsExpense(old(rows), id, userId)
      ensures r.Fail? ==> r.error == ExpenseMissing && rows == old(rows)
      ensures r.Pass? ==> rows == old(rows) - {id}
    {
      if id in rows && rows[id].userId == userId {
        rows := rows - {id};
        r := Pass;
      } else {
        r := Fail(ExpenseMissing);
      }
    }

    /** bulkDelete: all or nothing. It fails, deleting nothing, unless the
        ids are pairwise distinct and all name rows of the user; then it
        deletes exactly those rows. */
    method BulkDelete(ids: seq<Id>, userId: Id) returns (r: Outcome)
      requires Valid()
      modifies this
      ensures Valid()
      ensures r.Pass? <==> Distinct(ids) && forall k :: 0 <= k < |ids| ==> OwnsExpense(old(rows), ids[k], userId)
      ensures r.Fail? ==> r.error == SomeExpensesMissing && rows == old(rows)
      ensures r.Pass? ==> rows == map id | id in old(rows) && id !in ids :: old(rows)[id]
    {
      var expenses := OwnedAmong(rows, ids, userId);
      CountCheck(rows, ids, userId);
      if |expenses| != |ids| {
        return Fail(SomeExpensesMissing);
      }
      rows := map id | id in rows && !(id in ids && rows[id].userId == userId) :: rows[id];
      r := Pass;
    }

    /** findByCategory: the user's rows whose category is exactly the given one. */
    function FindByCategory(userId: Id, category: string): (r: map<Id, Expense>)
      reads this
      ensures forall id :: id in r <==> OwnsExpense(rows, id, userId) && rows[id].category == category
      ensures forall id :: id in r ==> id in rows && r[id] == rows[id]
    {
      map id | id in rows && rows[id].userId == userId && rows[id].category == category :: rows[id]
    }

    /** findRecurring: the user's rows marked recurring. */
    function FindRecurring(userId: Id): (r: map<Id, Expense>)
      reads this
      ensures forall id :: id in r <==> OwnsExpense(rows, id, userId) && rows[id].isRecurring
      ensures forall id :: id in r ==> id in rows && r[id] == rows[id]
    {
      map id | id in rows && rows[id].userId == userId && rows[id].isRecurring :: rows[id]
    }

    /** getMonthlyTotal: the amounts of the user's expenses inside the
        month's window, added up. */
    method GetMonthlyTotal(userId: Id, year: int, month: int) returns (total: real)
      ensures total == MonthlyTotal(rows, userId, year, month)
    {
      var start := MonthStart(year, month);
      var end := MonthEnd(year, month);
      var inWindow := map id | id in rows && rows[id].userId == userId && start <= rows[id].expenseDate <= end
                         :: rows[id].amount;
      assert inWindow == MonthlyExpenses(rows, userId, year, month);
      total := SumValues(inWindow);
    }
  }
}
