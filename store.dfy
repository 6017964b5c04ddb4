/**
 * The database behind both models: a users table and an expenses table keyed
 * by auto-incremented ids. It enforces what the schema declares: column
 * widths, the unique e-mail, that every expense's `userId` names an existing
 * user, and `onDelete: 'CASCADE'` from users to their expenses.
 */
module Store {
  import opened Wrappers
  import opened Calendar
  import ExpenseModel
  import opened UserModel

  type Expense = ExpenseModel.Expense

  datatype DbError = ValidationFailed | UniqueViolation | ColumnOverflow | ForeignKeyViolation | NotNull(attribute: string)

  datatype Inserted<T> = Inserted(row: T) | DbFailed(error: DbError)

  class Db {
    var users: map<nat, User>
    var expenses: map<nat, Expense>
    /** The next value of each AUTO_INCREMENT counter. */
    var nextUserId: nat
    var nextExpenseId: nat

    ghost predicate Valid()
      reads this
    {
      && (forall id :: id in users ==> id < nextUserId && users[id].id == id && UserModel.FitsColumns(users[id]))
      && EmailsUnique(users)
      && (forall id :: id in expenses ==>
            && id < nextExpenseId && expenses[id].id == id
            && ExpenseModel.FitsColumns(expenses[id]) && expenses[id].userId in users)
    }

    constructor ()
      ensures Valid()
      ensures users == map[] && expenses == map[]
    {
      users, expenses := map[], map[];
      nextUserId, nextExpenseId := 0, 0;
    }

    /**
     * `User.create`: the model's `isEmail` validation runs first, then the
     * `beforeCreate` hook hashes the password, then the row is inserted under
     * a fresh id unless a constraint rejects it.
     */
    method CreateUser(name: string, email: string, password: string,
                      isEmail: string -> bool, hash: string -> string)
      returns (r: Inserted<User>)
      requires Valid()
      modifies this
      ensures Valid() && expenses == old(expenses) && nextExpenseId == old(nextExpenseId)
      ensures var u := User(old(nextUserId), name, email, hash(password));
        if !isEmail(email) then r == DbFailed(ValidationFailed) && unchanged(this)
        else if EmailTaken(old(users), email) then r == DbFailed(UniqueViolation) && unchanged(this)
        else if !UserModel.FitsColumns(u) then r == DbFailed(ColumnOverflow) && unchanged(this)
        else r == Inserted(u) && u.id !in old(users)
             && users == old(users)[u.id := u] && nextUserId == old(nextUserId) + 1
    {
      if !isEmail(email) {
        r := DbFailed(ValidationFailed);
        return;
      }
      var u := BeforeCreate(User(nextUserId, name, email, password), hash);
      if EmailTaken(users, email) {
        r := DbFailed(UniqueViolation);
      } else if !UserModel.FitsColumns(u) {
        r := DbFailed(ColumnOverflow);
      } else {
        users := users[u.id := u];
        nextUserId := nextUserId + 1;
        r := Inserted(u);
      }
    }

    /**
     * `Expense.create`: the model fills its defaults, then the row is
     * inserted under a fresh id with `createdAt := now` unless a constraint
     * rejects it.
     */
    method CreateExpense(a: ExpenseModel.Attributes, today: Date, now: int)
      returns (r: Inserted<Expense>)
      requires Valid()
      modifies this
      ensures Valid() && users == old(users) && nextUserId == old(nextUserId)
      ensures var b := ExpenseModel.Build(a, today, old(nextExpenseId), now);
        if b.Rejected? then r == DbFailed(NotNull(b.error.attribute)) && unchanged(this)
        else if !ExpenseModel.FitsColumns(b.row) then r == DbFailed(ColumnOverflow) && unchanged(this)
        else if a.userId !in users then r == DbFailed(ForeignKeyViolation) && unchanged(this)
        else r == Inserted(b.row) && b.row.id !in old(expenses)
             && expenses == old(expenses)[b.row.id := b.row] && nextExpenseId == old(nextExpenseId) + 1
    {
      var b := ExpenseModel.Build(a, today, nextExpenseId, now);
      if b.Rejected? {
        r := DbFailed(NotNull(b.error.attribute));
      } else if !ExpenseModel.FitsColumns(b.row) {
        r := DbFailed(ColumnOverflow);
      } else if a.userId !in users {
        r := DbFailed(ForeignKeyViolation);
      } else {
        expenses := expenses[b.row.id := b.row];
        nextExpenseId := nextExpenseId + 1;
        r := Inserted(b.row);
      }
    }

    /** `expense.update(...)` on a loaded row: the new row replaces the old one unless a column rejects it. */
    method SaveExpense(e: Expense) returns (ok: bool)
      requires Valid() && e.id in expenses && e.userId == expenses[e.id].userId
      modifies this
      ensures Valid() && users == old(users) && nextUserId == old(nextUserId) && nextExpenseId == old(nextExpenseId)
      ensures ok == ExpenseModel.FitsColumns(e)
      ensures expenses == if ok then old(expenses)[e.id := e] else old(expenses)
    {
      ok := ExpenseModel.FitsColumns(e);
      if ok {
        expenses := expenses[e.id := e];
      }
    }

    /** `expense.destroy()`: exactly that row disappears. */
    method DestroyExpense(id: nat)
      requires Valid()
      modifies this
      ensures Valid() && users == old(users) && nextUserId == old(nextUserId) && nextExpenseId == old(nextExpenseId)
      ensures expenses == old(expenses) - {id}
    {
      expenses := expenses - {id};
    }

    /**
     * Deleting a user: `onDelete: 'CASCADE'` removes every expense whose
     * `userId` is that user's and leaves all other expenses as they were.
     */
    method DestroyUser(uid: nat)
      requires Valid()
      modifies this
      ensures Valid() && nextUserId == old(nextUserId) && nextExpenseId == old(nextExpenseId)
      ensures users == old(users) - {uid}
      ensures expenses == map id | id in old(expenses) && old(expenses)[id].userId != uid :: old(expenses)[id]
    {
      expenses := map id | id in expenses && expenses[id].userId != uid :: expenses[id];
      users := users - {uid};
    }
  }
}
