/**
 * The Expense record as declared by the Sequelize model: which attributes are
 * required, which one is nullable, the column widths, and the defaults the
 * model fills in when an attribute is not supplied.
 */
module ExpenseModel {
  import opened Wrappers
  import opened Calendar

  /** DECIMAL(10,2) holds at most 8 integer and 2 fractional digits; amounts are kept as whole cents. */
  const DecimalLimit: int := 10_000_000_000

  const TitleWidth: nat := 255
  const CategoryWidth: nat := 100
  const DefaultCategory: string := "Other"

  /**
   * A stored row. `notes` is the only nullable attribute; the other
   * attributes are required and so are plain values. `createdAt` is the
   * timestamp the store assigns on insert.
   */
  datatype Expense = Expense(
    id: nat,
    title: string,
    amount: int,
    category: string,
    date: Date,
    notes: Option<string>,
    userId: nat,
    createdAt: int)

  /** `amount` is representable as DECIMAL(10,2) (a value of at most ten significant digits, two after the point). */
  predicate FitsDecimal(cents: int) {
    -DecimalLimit < cents < DecimalLimit
  }

  /** What the database accepts for the columns of a row (strict mode rejects anything else). */
  predicate FitsColumns(e: Expense) {
    |e.title| <= TitleWidth && FitsDecimal(e.amount) && |e.category| <= CategoryWidth && ValidDate(e.date)
  }

  /** The attributes handed to `Expense.create`; `None` means the attribute was not supplied. */
  datatype Attributes = Attributes(
    title: Option<string>,
    amount: Option<int>,
    category: Option<string>,
    date: Option<Date>,
    notes: Option<string>,
    userId: nat)

  datatype BuildError = NotNullViolation(attribute: string)

  datatype Built = Built(row: Expense) | Rejected(error: BuildError)

  /**
   * The model-level part of `Expense.create`: a missing title or amount is a
   * not-null violation; a missing category becomes 'Other' and a missing date
   * becomes `today`. The store assigns `id` and `createdAt`.
   */
  function Build(a: Attributes, today: Date, id: nat, createdAt: int): (r: Built)
    ensures r.Built? <==> a.title.Some? && a.amount.Some?
    ensures r.Built? ==>
      && r.row.id == id && r.row.userId == a.userId && r.row.createdAt == createdAt
      && r.row.title == a.title.value && r.row.amount == a.amount.value
      && r.row.notes == a.notes
      && (a.category.Some? ==> r.row.category == a.category.value)
      && (a.category.None? ==> r.row.category == DefaultCategory)
      && (a.date.Some? ==> r.row.date == a.date.value)
      && (a.date.None? ==> r.row.date == today)
  {
    if a.title.None? then Rejected(NotNullViolation("title"))
    else if a.amount.None? then Rejected(NotNullViolation("amount"))
    else Built(Expense(id, a.title.value, a.amount.value, a.category.GetOr(DefaultCategory),
                       a.date.GetOr(today), a.notes, a.userId, createdAt))
  }

  /** The category becomes 'Other' exactly when none was supplied or 'Other' itself was. */
  lemma DefaultCategoryOnlyWhenAbsent(a: Attributes, today: Date, id: nat, createdAt: int)
    requires a.title.Some? && a.amount.Some?
    ensures Build(a, today, id, createdAt).row.category == DefaultCategory
            <==> a.category.None? || a.category == Some(DefaultCategory)
  {
  }
}
