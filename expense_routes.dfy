/**
 * The `/api/expenses` handlers. Every route sits behind the auth middleware,
 * so each handler receives the authenticated caller's id (`req.user.id`)
 * rather than anything the client claims about itself.
 */
module ExpenseRoutes {
  import opened Wrappers
  import opened Calendar
  import opened ExpenseModel
  import opened Http
  import Store

  // ---------------------------------------------------------------- GET /

  /**
   * The query string: `category` is "" when absent, `month` is `None` when
   * absent or empty and otherwise an already split "YYYY-MM" token.
   */
  datatype Query = Query(category: string, month: Option<YearMonth>)

  /** The Sequelize `where` object: the owner, and the conditionally added category and date range. */
  datatype Where = Where(userId: nat, category: Option<string>, between: Option<(Date, Date)>)

  /** `req.query.category && req.query.category !== 'All'`. */
  predicate CategoryFilterActive(category: string) {
    category != "" && category != "All"
  }

  /** Lines 16-28: start from the owner and add each filter only when its guard holds. */
  function BuildWhere(caller: nat, q: Query): (w: Where)
    ensures w.userId == caller
    ensures w.category.Some? <==> CategoryFilterActive(q.category)
    ensures w.between.Some? <==> q.month.Some?
  {
    var w0 := Where(caller, None, None);
    var w1 := if CategoryFilterActive(q.category) then w0.(category := Some(q.category)) else w0;
    if q.month.Some? then w1.(between := Some((FirstDay(q.month.value), LastDay(q.month.value)))) else w1
  }

  /** What the database selects for a `where` object: equality on each field, `BETWEEN` inclusive on the date. */
  predicate Selects(w: Where, e: Expense) {
    && e.userId == w.userId
    && (w.category.Some? ==> e.category == w.category.value)
    && (w.between.Some? ==> NotAfter(w.between.value.0, e.date) && NotAfter(e.date, w.between.value.1))
  }

  /**
   * The listing keeps exactly the caller's own rows, with the literal
   * category when that filter is active, dated in the requested calendar
   * month when one is given.
   */
  lemma ListSelection(caller: nat, q: Query, e: Expense)
    requires ValidDate(e.date)
    ensures Selects(BuildWhere(caller, q), e) <==>
      && e.userId == caller
      && (CategoryFilterActive(q.category) ==> e.category == q.category)
      && (q.month.Some? ==> e.date.year == q.month.value.year && e.date.month == q.month.value.month)
  {
    if q.month.Some? {
      MonthRangeExact(e.date, q.month.value);
    }
  }

  /** "All", the empty string, or no category at all select the same rows. */
  lemma AllMeansNoCategoryFilter(caller: nat, month: Option<YearMonth>, e: Expense)
    ensures Selects(BuildWhere(caller, Query("All", month)), e) == Selects(BuildWhere(caller, Query("", month)), e)
    ensures BuildWhere(caller, Query("All", month)).category == None
  {
  }

  /** `order: [['date', 'DESC'], ['createdAt', 'DESC']]`: `a` may be listed before `b`. */
  predicate NewerFirst(a: Expense, b: Expense) {
    Before(b.date, a.date) || (a.date == b.date && a.createdAt >= b.createdAt)
  }

  predicate SortedNewestFirst(s: seq<Expense>) {
    forall i, j :: 0 <= i < j < |s| ==> NewerFirst(s[i], s[j])
  }

  predicate DistinctIds(s: seq<Expense>) {
    forall i, j :: 0 <= i < j < |s| ==> s[i].id != s[j].id
  }

  /** Places `e` in front of the first element it may precede. */
  function InsertNewestFirst(e: Expense, s: seq<Expense>): (r: seq<Expense>)
    ensures |r| == |s| + 1
    ensures multiset(r) == multiset(s) + multiset{e}
    ensures forall x :: x in r <==> x == e || x in s
  {
    if s == [] then [e]
    else if NewerFirst(e, s[0]) then [e] + s
    else
      assert s == [s[0]] + s[1..];
      [s[0]] + InsertNewestFirst(e, s[1..])
  }

  /** Insertion keeps the listing order. */
  lemma {:induction false} InsertKeepsOrder(e: Expense, s: seq<Expense>)
    requires SortedNewestFirst(s)
    ensures SortedNewestFirst(InsertNewestFirst(e, s))
  {
    if s != [] && !NewerFirst(e, s[0]) {
      InsertKeepsOrder(e, s[1..]);
      var t := InsertNewestFirst(e, s[1..]);
      assert InsertNewestFirst(e, s) == [s[0]] + t;
      forall x | x in t
        ensures NewerFirst(s[0], x)
      {
        if x != e {
          var j :| 0 <= j < |s[1..]| && s[1..][j] == x;
          assert s[j + 1] == x;
        }
      }
    }
  }

  /** Insertion of a row with a new id keeps the ids distinct. */
  lemma {:induction false} InsertKeepsIdsDistinct(e: Expense, s: seq<Expense>)
    requires DistinctIds(s)
    requires forall x :: x in s ==> x.id != e.id
    ensures DistinctIds(InsertNewestFirst(e, s))
  {
    if s != [] && !NewerFirst(e, s[0]) {
      InsertKeepsIdsDistinct(e, s[1..]);
      var t := InsertNewestFirst(e, s[1..]);
      assert InsertNewestFirst(e, s) == [s[0]] + t;
      forall x | x in t
        ensures x.id != s[0].id
      {
        if x != e {
          var j :| 0 <= j < |s[1..]| && s[1..][j] == x;
          assert s[j + 1] == x;
        }
      }
    }
  }

  /**
   * GET `/`: every row the `where` object selects, each once, newest date
   * first and, within a date, most recently created first. The loop stands
   * for the database's ordered scan.
   */
  method List(db: Store.Db, caller: nat, q: Query) returns (r: seq<Expense>)
    requires db.Valid()
    ensures forall e :: e in r <==> e in db.expenses.Values && Selects(BuildWhere(caller, q), e)
    ensures forall e :: e in r ==> e.userId == caller
    ensures DistinctIds(r)
    ensures SortedNewestFirst(r)
  {
    var w := BuildWhere(caller, q);
    var todo := db.expenses.Keys;
    r := [];
    while todo != {}
      invariant todo <= db.expenses.Keys
      invariant forall e :: e in r <==> e.id in db.expenses && e.id !in todo && db.expenses[e.id] == e && Selects(w, e)
      invariant DistinctIds(r)
      invariant SortedNewestFirst(r)
      decreases todo
    {
      var id :| id in todo;
      var e := db.expenses[id];
      if Selects(w, e) {
        InsertKeepsOrder(e, r);
        InsertKeepsIdsDistinct(e, r);
        r := InsertNewestFirst(e, r);
      }
      todo := todo - {id};
    }
    forall e | e in db.expenses.Values
      ensures e.id in db.expenses && db.expenses[e.id] == e
    {
      var k :| k in db.expenses && db.expenses[k] == e;
    }
  }

  // ---------------------------------------------------------------- POST /

  /**
   * A JSON body for POST; `None` stands for an absent key (and, for `date`,
   * for the empty string). `amount` is in cents, `None` when it is not a
   * number. A client-supplied `userId` is accepted into the body and ignored.
   */
  datatype CreateBody = CreateBody(
    title: Option<string>,
    amount: Option<int>,
    category: Option<string>,
    date: Option<Date>,
    notes: Option<string>,
    userId: Option<nat>)

  /** express-validator's `notEmpty()`: an absent value is checked as "". */
  predicate NotEmpty(v: Option<string>) {
    v.Some? && v.value != ""
  }

  /** `isFloat({ gt: 0 })`. */
  predicate PositiveAmount(v: Option<int>) {
    v.Some? && v.value > 0
  }

  /** The fields of the chain of lines 47-51, in the order it checks them. */
  const CreateChain: seq<string> := ["title", "amount", "category"]

  /** The validation chain of lines 47-51, one error per failing check, in chain order. */
  function ValidateCreate(b: CreateBody): (errs: seq<FieldError>)
    ensures errs == [] <==> NotEmpty(b.title) && PositiveAmount(b.amount) && NotEmpty(b.category)
    ensures FieldError("title", "Title is required") in errs <==> !NotEmpty(b.title)
    ensures FieldError("amount", "Amount must be a positive number") in errs <==> !PositiveAmount(b.amount)
    ensures FieldError("category", "Category is required") in errs <==> !NotEmpty(b.category)
    ensures forall e :: e in errs ==>
      e in {FieldError("title", "Title is required"), FieldError("amount", "Amount must be a positive number"),
            FieldError("category", "Category is required")}
    ensures |errs| == (if NotEmpty(b.title) then 0 else 1) + (if PositiveAmount(b.amount) then 0 else 1)
                      + (if NotEmpty(b.category) then 0 else 1)
    ensures InChainOrder(CreateChain, errs)
  {
    (if NotEmpty(b.title) then [] else [FieldError("title", "Title is required")])
    + (if PositiveAmount(b.amount) then [] else [FieldError("amount", "Amount must be a positive number")])
    + (if NotEmpty(b.category) then [] else [FieldError("category", "Category is required")])
  }

  /** JavaScript's `x || fallback` on an optional string: "" counts as missing. */
  function OrNull(v: Option<string>): (r: Option<string>)
    ensures r.Some? <==> NotEmpty(v)
    ensures r.Some? ==> r == v
  {
    if NotEmpty(v) then v else None
  }

  /** Lines 61-68: the attributes handed to `Expense.create`. */
  function CreateAttributes(b: CreateBody, caller: nat, today: Date): (a: Attributes)
    ensures a.userId == caller
    ensures a.title == b.title && a.amount == b.amount && a.category == b.category
    ensures a.date == Some(b.date.GetOr(today))
    ensures a.notes == OrNull(b.notes)
  {
    Attributes(b.title, b.amount, b.category, Some(b.date.GetOr(today)), OrNull(b.notes), caller)
  }

  /** A body that passes validation never hits the model's not-null checks or its 'Other' category default. */
  lemma ValidBodyNeedsNoModelDefaults(b: CreateBody, caller: nat, today: Date, id: nat, now: int)
    requires ValidateCreate(b) == []
    ensures var built := Build(CreateAttributes(b, caller, today), today, id, now);
      built.Built? && built.row.category == b.category.value && built.row.category != ""
  {
  }

  /**
   * POST `/`: a failed validation answers 400 with the error list and
   * inserts nothing; otherwise the (possibly rejected) insert of the
   * caller's new row, with its date defaulted to today and empty notes
   * stored as null.
   */
  method Create(db: Store.Db, caller: nat, b: CreateBody, today: Date, now: int)
    returns (resp: Response<Expense>)
    requires db.Valid()
    modifies db
    ensures db.Valid() && db.users == old(db.users)
    ensures ValidateCreate(b) != [] ==> resp == Invalid(ValidateCreate(b)) && unchanged(db)
    ensures resp.Success? <==>
      ValidateCreate(b) == [] && caller in old(db.users)
      && FitsColumns(Build(CreateAttributes(b, caller, today), today, old(db.nextExpenseId), now).row)
    ensures resp.Success? ==>
      && resp.status == 201
      && resp.value == Build(CreateAttributes(b, caller, today), today, old(db.nextExpenseId), now).row
      && resp.value.id !in old(db.expenses)
      && db.expenses == old(db.expenses)[resp.value.id := resp.value]
    ensures ValidateCreate(b) == [] ==> !resp.Invalid?
    ensures ValidateCreate(b) == [] && !resp.Success? ==> resp == Failure(500, ServerError) && unchanged(db)
    ensures resp.Failure? ==> resp == Failure(500, ServerError) && unchanged(db)
  {
    var errs := ValidateCreate(b);
    if errs != [] {
      return Invalid(errs);
    }
    ValidBodyNeedsNoModelDefaults(b, caller, today, db.nextExpenseId, now);
    var inserted := db.CreateExpense(CreateAttributes(b, caller, today), today, now);
    if inserted.Inserted? {
      resp := Success(201, inserted.row);
    } else {
      resp := Failure(500, ServerError);
    }
  }

  /** What a successful create stores: the caller as owner whatever the body says, and the documented defaults. */
  lemma CreatedRowShape(b: CreateBody, caller: nat, today: Date, id: nat, now: int)
    requires ValidateCreate(b) == []
    ensures var e := Build(CreateAttributes(b, caller, today), today, id, now).row;
      && e.userId == caller
      && e.title == b.title.value && e.amount == b.amount.value && e.amount > 0
      && e.category == b.category.value
      && (b.date.None? ==> e.date == today)
      && (b.date.Some? ==> e.date == b.date.value)
      && (b.notes.None? || b.notes == Some("") ==> e.notes.None?)
      && (NotEmpty(b.notes) ==> e.notes == b.notes)
  {
  }

  // ---------------------------------------------------------------- PUT /:id

  datatype Patch = Patch(
    title: Field<string>,
    amount: Field<int>,
    category: Field<string>,
    date: Field<Date>,
    notes: Field<string>)

  /** `v ?? current`: only `null` and `undefined` fall back; "" and 0 are kept. */
  function Coalesce<T>(v: Field<T>, current: T): T {
    if v.Given? then v.value else current
  }

  /** `v !== undefined ? v : current`: `null` is kept and clears the notes. */
  function DefinedOr(v: Field<string>, current: Option<string>): Option<string> {
    match v
    case Undefined => current
    case Null => None
    case Given(s) => Some(s)
  }

  /** Lines 94-100: the merged row. `id`, `userId` and `createdAt` are never part of the patch. */
  function Merge(e: Expense, p: Patch): (r: Expense)
    ensures r.id == e.id && r.userId == e.userId && r.createdAt == e.createdAt
    ensures r.title == (if p.title.Given? then p.title.value else e.title)
    ensures r.amount == (if p.amount.Given? then p.amount.value else e.amount)
    ensures r.category == (if p.category.Given? then p.category.value else e.category)
    ensures r.date == (if p.date.Given? then p.date.value else e.date)
    ensures p.notes.Given? ==> r.notes == Some(p.notes.value)
    ensures p.notes.Null? ==> r.notes.None?
    ensures p.notes.Undefined? ==> r.notes == e.notes
  {
    e.(title := Coalesce(p.title, e.title),
       amount := Coalesce(p.amount, e.amount),
       category := Coalesce(p.category, e.category),
       date := Coalesce(p.date, e.date),
       notes := DefinedOr(p.notes, e.notes))
  }

  /**
   * The two absence rules of the merge: an old title, amount, category or
   * date survives exactly when the patch has `null` or nothing for it; old
   * notes survive when the patch has nothing for them, and `null` clears them.
   */
  lemma MergeAbsenceRules(e: Expense, p: Patch)
    ensures Merge(e, p).title == e.title <==> p.title.Undefined? || p.title.Null? || p.title.value == e.title
    ensures Merge(e, p).amount == e.amount <==> !p.amount.Given? || p.amount.value == e.amount
    ensures p.category.Given? ==> Merge(e, p).category == p.category.value
    ensures !p.category.Given? ==> Merge(e, p).category == e.category
    ensures p.date.Given? ==> Merge(e, p).date == p.date.value
    ensures !p.date.Given? ==> Merge(e, p).date == e.date
    ensures p.notes.Given? ==> Merge(e, p).notes == Some(p.notes.value)
    ensures p.notes.Undefined? ==> Merge(e, p).notes == e.notes
    ensures p.notes.Null? ==> Merge(e, p).notes.None?
    ensures p.notes == Given("") ==> Merge(e, p).notes == Some("")
    ensures p.title == Given("") ==> Merge(e, p).title == ""
    ensures p.amount == Given(0) ==> Merge(e, p).amount == 0
  {
  }

  /** The patch with every key absent. */
  const EmptyPatch: Patch := Patch(Undefined, Undefined, Undefined, Undefined, Undefined)

  /** `p2` applied after `p1`, as one patch: a later nullish value defers to the earlier one, later `null` notes win. */
  function Then(p1: Patch, p2: Patch): Patch {
    Patch(
      if p2.title.Given? then p2.title else p1.title,
      if p2.amount.Given? then p2.amount else p1.amount,
      if p2.category.Given? then p2.category else p1.category,
      if p2.date.Given? then p2.date else p1.date,
      if p2.notes.Undefined? then p1.notes else p2.notes)
  }

  /** Merging is a monoid action: the empty patch changes nothing, a repeated patch changes nothing more, and two patches compose. */
  lemma MergeAlgebra(e: Expense, p: Patch, p1: Patch, p2: Patch)
    ensures Merge(e, EmptyPatch) == e
    ensures Merge(Merge(e, p), p) == Merge(e, p)
    ensures Merge(Merge(e, p1), p2) == Merge(e, Then(p1, p2))
  {
  }

  const NotFound: string := "Expense not found"
  const NotAuthorized: string := "Not authorized"

  /**
   * PUT `/:id`: 404 for a missing row before 403 for someone else's, both
   * leaving the store as it was; otherwise the merged row replaces the old
   * one without any re-validation, unless a column rejects it (500).
   */
  method Update(db: Store.Db, caller: nat, id: nat, p: Patch) returns (resp: Response<Expense>)
    requires db.Valid()
    modifies db
    ensures db.Valid() && db.users == old(db.users)
    ensures id !in old(db.expenses) ==> resp == Failure(404, NotFound) && unchanged(db)
    ensures id in old(db.expenses) && old(db.expenses)[id].userId != caller ==>
      resp == Failure(403, NotAuthorized) && unchanged(db)
    ensures id in old(db.expenses) && old(db.expenses)[id].userId == caller ==>
      var m := Merge(old(db.expenses)[id], p);
      if FitsColumns(m) then resp == Success(200, m) && db.expenses == old(db.expenses)[id := m]
      else resp == Failure(500, ServerError) && db.expenses == old(db.expenses)
  {
    if id !in db.expenses {
      return Failure(404, NotFound);
    }
    var e := db.expenses[id];
    if e.userId != caller {
      return Failure(403, NotAuthorized);
    }
    var m := Merge(e, p);
    var ok := db.SaveExpense(m);
    resp := if ok then Success(200, m) else Failure(500, ServerError);
  }

  // ---------------------------------------------------------------- DELETE /:id

  datatype Deleted = Deleted(message: string)

  /** DELETE `/:id`: the same 404-then-403 precedence; otherwise exactly that one row is removed. */
  method Delete(db: Store.Db, caller: nat, id: nat) returns (resp: Response<Deleted>)
    requires db.Valid()
    modifies db
    ensures db.Valid() && db.users == old(db.users)
    ensures id !in old(db.expenses) ==> resp == Failure(404, NotFound) && unchanged(db)
    ensures id in old(db.expenses) && old(db.expenses)[id].userId != caller ==>
      resp == Failure(403, NotAuthorized) && unchanged(db)
    ensures id in old(db.expenses) && old(db.expenses)[id].userId == caller ==>
      resp == Success(200, Deleted("Expense deleted")) && db.expenses == old(db.expenses) - {id}
  {
    if id !in db.expenses {
      return Failure(404, NotFound);
    }
    if db.expenses[id].userId != caller {
      return Failure(403, NotAuthorized);
    }
    db.DestroyExpense(id);
    resp := Success(200, Deleted("Expense deleted"));
  }
}
