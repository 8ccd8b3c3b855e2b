/** The business checks of the expenses service (src/expenses/expenses.service.ts):
    an amount must be positive and a recurring expense needs a recurrence
    period. */
module ExpenseService {
  import opened Common
  import opened Calendar
  import opened ExpenseStore

  /** The rules the service enforces on what it writes: a positive amount,
      and a recurrence period whenever the expense recurs. */
  predicate Sound(e: Expense) {
    e.amount > 0.0 && (e.isRecurring ==> !Falsy(e.recurrencePeriod))
  }

  /** `!data.recurrencePeriod` for an update request: absent, null or "". */
  predicate NoPeriod(p: Patch<Option<string>>) {
    p.Keep? || Falsy(p.value)
  }

  /** The guards of createExpense, in the order they are checked. */
  function CreateCheck(data: NewExpense): (r: Outcome)
    ensures r.Pass? <==> data.amount > 0.0 && (data.isRecurring == Some(true) ==> !Falsy(data.recurrencePeriod))
    ensures data.amount <= 0.0 ==> r == Fail(NonPositiveAmount)
    ensures r.Fail? && data.amount > 0.0 ==> r == Fail(MissingRecurrencePeriod)
  {
    if data.amount <= 0.0 then Fail(NonPositiveAmount)
    else if data.isRecurring == Some(true) && Falsy(data.recurrencePeriod) then Fail(MissingRecurrencePeriod)
    else Pass
  }

  /** The guards of updateExpense: the amount only when one is supplied, the
      period only when the same request sets isRecurring to true. */
  function UpdateCheck(patch: ExpensePatch): (r: Outcome)
    ensures r.Pass? <==>
              (patch.amount.Set? ==> patch.amount.value > 0.0)
              && !(patch.isRecurring == Set(true) && NoPeriod(patch.recurrencePeriod))
    ensures patch.amount.Set? && patch.amount.value <= 0.0 ==> r == Fail(NonPositiveAmount)
    ensures r.Fail? && !(patch.amount.Set? && patch.amount.value <= 0.0) ==> r == Fail(MissingRecurrencePeriod)
  {
    if patch.amount.Set? && patch.amount.value <= 0.0 then Fail(NonPositiveAmount)
    else if patch.isRecurring == Set(true) && NoPeriod(patch.recurrencePeriod) then Fail(MissingRecurrencePeriod)
    else Pass
  }

  /** An expense created through the service satisfies both rules. */
  lemma CreatedIsSound(id: Id, userId: Id, data: NewExpense, now: Timestamp)
    requires CreateCheck(data).Pass?
    ensures Sound(NewExpenseRow(id, userId, data, now))
  {
  }

  /** An accepted update keeps a sound expense sound, unless it clears the
      period of an expense it leaves recurring. */
  lemma UpdateKeepsSound(e: Expense, patch: ExpensePatch)
    requires Sound(e) && UpdateCheck(patch).Pass?
    requires patch.recurrencePeriod.Set? && Falsy(patch.recurrencePeriod.value) ==> patch.isRecurring == Set(false)
    ensures Sound(PatchedExpense(e, patch))
  {
  }

  /** The period check looks at the request only: clearing the period of a
      recurring expense is accepted and leaves a recurring expense without
      a period. */
  lemma ClearingPeriodAccepted(e: Expense)
    requires Sound(e) && e.isRecurring
    ensures var patch := ExpensePatch(Keep, Keep, Keep, Keep, Keep, Set(None));
            UpdateCheck(patch).Pass? && !Sound(PatchedExpense(e, patch))
  {
  }

  class ExpensesService {
    const repository: ExpensesRepository

    constructor (repository: ExpensesRepository)
      ensures this.repository == repository
    {
      this.repository := repository;
    }

    /** createExpense: the guards, then the request forwarded to the repository. */
    method CreateExpense(userId: Id, data: NewExpense, id: Id, now: Timestamp) returns (r: Result<Expense>)
      requires repository.Valid() && id !in repository.rows
      modifies repository
      ensures repository.Valid()
      ensures CreateCheck(data).Fail? ==>
                r == Err(CreateCheck(data).error) && repository.rows == old(repository.rows)
      ensures CreateCheck(data).Pass? ==>
                r == Ok(NewExpenseRow(id, userId, data, now)) && repository.rows == old(repository.rows)[id := r.value]
      ensures r.Ok? ==> Sound(r.value)
    {
      if data.amount <= 0.0 {
        return Err(NonPositiveAmount);
      }
      if data.isRecurring == Some(true) && Falsy(data.recurrencePeriod) {
        return Err(MissingRecurrencePeriod);
      }
      var e := repository.Create(userId, data, id, now);
      r := Ok(e);
    }

    /** updateExpense: the guards, then the request forwarded unchanged to
        the repository, which fails when the user owns no such expense. */
    method UpdateExpense(id: Id, userId: Id, patch: ExpensePatch) returns (r: Result<Expense>)
      requires repository.Valid()
      modifies repository
      ensures repository.Valid()
      ensures UpdateCheck(patch).Fail? ==>
                r == Err(UpdateCheck(patch).error) && repository.rows == old(repository.rows)
      ensures UpdateCheck(patch).Pass? && !OwnsExpense(old(repository.rows), id, userId) ==>
                r == Err(ExpenseMissing) && repository.rows == old(repository.rows)
      ensures UpdateCheck(patch).Pass? && OwnsExpense(old(repository.rows), id, userId) ==>
                r == Ok(PatchedExpense(old(repository.rows)[id], patch))
                && repository.rows == old(repository.rows)[id := r.value]
    {
      if patch.amount.Set? && patch.amount.value <= 0.0 {
        return Err(NonPositiveAmount);
      }
      if patch.isRecurring == Set(true) && (patch.recurrencePeriod.Keep? || Falsy(patch.recurrencePeriod.value)) {
        return Err(MissingRecurrencePeriod);
      }
      r := repository.Update(id, userId, patch);
    }
  }
}
