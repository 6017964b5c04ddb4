/**
 * The Expenses page: the add/edit modal's form and submit, the query
 * parameters of the listing request, and how the in-memory list follows a
 * create, an update or a delete. The results of HTTP calls are parameters.
 */
module ExpensesPage {
  import opened Wrappers
  import opened Calendar
  import opened ExpenseModel
  import opened ClientErrors
  import Http
  import ExpenseRoutes

  // ---------------------------------------------------------------- the modal

  /**
   * The modal's form state. `amount` is `None` for the empty input; an
   * existing expense's amount always arrives as a non-empty DECIMAL string,
   * so `expense.amount || ''` keeps it.
   */
  datatype Form = Form(title: string, amount: Option<int>, category: string, date: Date, notes: string)

  const DefaultFormCategory: string := "Food"

  /** Lines 27-35: a blank form for a new expense, a copy of the expense's fields for an edit. */
  function InitialForm(expense: Option<Expense>, today: Date): (f: Form)
    ensures expense.None? ==> f == Form("", None, DefaultFormCategory, today, "")
    ensures expense.Some? ==>
      var e := expense.value;
      && f.title == e.title && f.amount == Some(e.amount) && f.date == e.date
      && f.category == (if e.category == "" then DefaultFormCategory else e.category)
      && f.notes == e.notes.GetOr("")
  {
    match expense
    case None => Form("", None, DefaultFormCategory, today, "")
    case Some(e) =>
      Form(e.title, Some(e.amount), if e.category != "" then e.category else DefaultFormCategory,
           e.date, e.notes.GetOr(""))
  }

  /** The request the modal sends: PUT to the expense's id when editing, POST otherwise. */
  datatype Request = Put(id: nat, form: Form) | Post(form: Form)

  function SubmitRequest(expense: Option<Expense>, form: Form): (r: Request)
    ensures r.Put? <==> expense.Some?
    ensures r.Put? ==> r.id == expense.value.id
    ensures r.form == form
  {
    if expense.Some? then Put(expense.value.id, form) else Post(form)
  }

  /** The JSON of an edit form with an amount, as the server's PUT handler reads it: every key is present. */
  function FormPatch(f: Form): ExpenseRoutes.Patch
    requires f.amount.Some?
  {
    ExpenseRoutes.Patch(Http.Given(f.title), Http.Given(f.amount.value),
                        Http.Given(f.category), Http.Given(f.date), Http.Given(f.notes))
  }

  /** The JSON of a form as the server's POST handler reads it; the empty amount is not a number. */
  function FormBody(f: Form): ExpenseRoutes.CreateBody {
    ExpenseRoutes.CreateBody(Some(f.title), f.amount, Some(f.category), Some(f.date), Some(f.notes), None)
  }

  /**
   * Saving an edit without touching the form rewrites the row with its own
   * values, except that null notes become "" and an empty category becomes
   * 'Food'; the same empty notes sent by POST are stored as null.
   */
  lemma UntouchedEditRoundTrip(e: Expense, today: Date)
    ensures ExpenseRoutes.Merge(e, FormPatch(InitialForm(Some(e), today)))
            == e.(notes := Some(e.notes.GetOr("")),
                  category := if e.category == "" then DefaultFormCategory else e.category)
    ensures ExpenseRoutes.CreateAttributes(FormBody(InitialForm(Some(e), today)), e.userId, today).notes
            == (if e.notes == Some("") then None else e.notes)
  {
  }

  const MinAmountCents: int := 1

  /**
   * The browser's checks before `onSubmit` fires: the title and amount
   * inputs are `required`, and the amount has `min="0.01"`.
   */
  predicate BrowserAccepts(f: Form) {
    f.title != "" && f.amount.Some? && f.amount.value >= MinAmountCents
  }

  /**
   * The server's view of an untouched add form: an empty title and no
   * amount, with the title's complaint shown first. The browser's own
   * checks stop such a form before it is sent.
   */
  lemma BlankAddFormRejected(today: Date)
    ensures var errs := ExpenseRoutes.ValidateCreate(FormBody(InitialForm(None, today)));
      && |errs| == 2 && errs[0] == Http.FieldError("title", "Title is required")
      && Describe(Some(FromServer(Http.Response<Expense>.Invalid(errs))), SomethingWentWrong) == "Title is required"
    ensures !BrowserAccepts(InitialForm(None, today))
  {
  }

  const SomethingWentWrong: string := "Something went wrong"

  /** The answer to the modal's request: the saved row, or a rejection with the response data if any. */
  datatype SaveOutcome = Saved(row: Expense) | SaveRejected(response: Option<ErrorData>)

  // ---------------------------------------------------------------- list maintenance

  /** A create: the new expense goes first. */
  function Prepend(e: Expense, list: seq<Expense>): (r: seq<Expense>)
    ensures |r| == |list| + 1 && r[0] == e && r[1..] == list
  {
    [e] + list
  }

  /** An update: every element with the saved id is replaced by the saved row, in place. */
  function ReplaceById(list: seq<Expense>, e: Expense): (r: seq<Expense>)
    ensures |r| == |list|
    ensures forall i :: 0 <= i < |list| ==> r[i] == if list[i].id == e.id then e else list[i]
  {
    if list == [] then [] else [if list[0].id == e.id then e else list[0]] + ReplaceById(list[1..], e)
  }

  /** A delete: the elements with the target id are dropped. */
  function RemoveById(list: seq<Expense>, id: nat): (r: seq<Expense>)
    ensures |r| <= |list|
    ensures forall x :: x in r <==> x in list && x.id != id
  {
    if list == [] then []
    else if list[0].id == id then RemoveById(list[1..], id)
    else [list[0]] + RemoveById(list[1..], id)
  }

  /** Removal works piecewise, so the survivors keep their relative order. */
  lemma {:induction false} RemoveByIdSplits(a: seq<Expense>, b: seq<Expense>, id: nat)
    ensures RemoveById(a + b, id) == RemoveById(a, id) + RemoveById(b, id)
  {
    if a == [] {
      assert a + b == b;
    } else {
      assert (a + b)[0] == a[0] && (a + b)[1..] == a[1..] + b;
      RemoveByIdSplits(a[1..], b, id);
    }
  }

  /** With unique ids, deleting a listed id shortens the list by exactly one. */
  lemma {:induction false} RemoveListedId(list: seq<Expense>, id: nat)
    requires forall i, j :: 0 <= i < j < |list| ==> list[i].id != list[j].id
    requires exists i :: 0 <= i < |list| && list[i].id == id
    ensures |RemoveById(list, id)| == |list| - 1
  {
    if list[0].id == id {
      RemoveAbsentId(list[1..], id);
    } else {
      var i :| 0 <= i < |list| && list[i].id == id;
      assert list[1..][i - 1].id == id;
      RemoveListedId(list[1..], id);
    }
  }

  lemma {:induction false} RemoveAbsentId(list: seq<Expense>, id: nat)
    requires forall i :: 0 <= i < |list| ==> list[i].id != id
    ensures RemoveById(list, id) == list
  {
    if list != [] {
      RemoveAbsentId(list[1..], id);
    }
  }

  // ---------------------------------------------------------------- the page

  /** The query parameters of `fetchExpenses`: keys are omitted rather than sent empty. */
  datatype Params = Params(category: Option<string>, month: Option<string>)

  function FetchParams(filterCategory: string, filterMonth: string): (p: Params)
    ensures p.category.None? <==> filterCategory == "All"
    ensures p.category.Some? ==> p.category.value == filterCategory
    ensures p.month.None? <==> filterMonth == ""
    ensures p.month.Some? ==> p.month.value == filterMonth
  {
    Params(if filterCategory != "All" then Some(filterCategory) else None,
           if filterMonth != "" then Some(filterMonth) else None)
  }

  /** The server filters by category exactly when the page's filter is a real category name. */
  lemma ClientAndServerAgreeOnCategory(filterCategory: string, filterMonth: string)
    ensures ExpenseRoutes.CategoryFilterActive(FetchParams(filterCategory, filterMonth).category.GetOr(""))
            <==> filterCategory != "All" && filterCategory != ""
  {
  }

  datatype SaveKind = Create | Update

  class Page {
    var expenses: seq<Expense>
    var loading: bool
    var showModal: bool
    var editExpense: Option<Expense>
    var deleteTarget: Option<Expense>
    var filterCategory: string
    var filterMonth: string

    constructor ()
      ensures expenses == [] && loading && !showModal && editExpense.None? && deleteTarget.None?
      ensures filterCategory == "All" && filterMonth == ""
    {
      expenses, loading, showModal := [], true, false;
      editExpense, deleteTarget := None, None;
      filterCategory, filterMonth := "All", "";
    }

    /** `fetchExpenses`, with `fetched` the listing returned (`None` when the request failed). */
    method FetchExpenses(fetched: Option<seq<Expense>>) returns (p: Params)
      modifies this
      ensures p == FetchParams(filterCategory, filterMonth)
      ensures expenses == if fetched.Some? then fetched.value else old(expenses)
      ensures !loading
      ensures showModal == old(showModal) && editExpense == old(editExpense) && deleteTarget == old(deleteTarget)
      ensures filterCategory == old(filterCategory) && filterMonth == old(filterMonth)
    {
      p := FetchParams(filterCategory, filterMonth);
      if fetched.Some? {
        expenses := fetched.value;
      }
      loading := false;
    }

    /** `handleSave`: a create prepends, anything else replaces by id. */
    method HandleSave(e: Expense, kind: SaveKind)
      modifies this`expenses
      ensures expenses == if kind == Create then Prepend(e, old(expenses)) else ReplaceById(old(expenses), e)
    {
      if kind == Create {
        expenses := Prepend(e, expenses);
      } else {
        expenses := ReplaceById(expenses, e);
      }
    }

    /** The row's delete button. */
    method AskDelete(e: Expense)
      modifies this`deleteTarget
      ensures deleteTarget == Some(e)
    {
      deleteTarget := Some(e);
    }

    /** The confirmation dialog's cancel: the target is dropped and the list kept. */
    method CancelDelete()
      modifies this`deleteTarget
      ensures deleteTarget.None?
    {
      deleteTarget := None;
    }

    /**
     * `handleDelete`, with `deleted` whether the DELETE request succeeded.
     * Without a target nothing happens; otherwise the list loses the
     * target's id only on success, and the target is cleared either way.
     */
    method HandleDelete(deleted: bool)
      modifies this`expenses, this`deleteTarget
      ensures old(deleteTarget).None? ==> expenses == old(expenses) && deleteTarget == old(deleteTarget)
      ensures old(deleteTarget).Some? ==>
        && deleteTarget.None?
        && expenses == if deleted then RemoveById(old(expenses), old(deleteTarget).value.id) else old(expenses)
    {
      if deleteTarget.None? {
        return;
      }
      if deleted {
        expenses := RemoveById(expenses, deleteTarget.value.id);
      }
      deleteTarget := None;
    }

    method OpenEdit(e: Expense)
      modifies this`editExpense, this`showModal
      ensures editExpense == Some(e) && showModal
    {
      editExpense := Some(e);
      showModal := true;
    }

    method OpenAdd()
      modifies this`editExpense, this`showModal
      ensures editExpense.None? && showModal
    {
      editExpense := None;
      showModal := true;
    }

    method CloseModal()
      modifies this`showModal
      ensures !showModal
    {
      showModal := false;
    }
  }

  /** The modal's own state: the expense being edited (if any), the form, the error line and the saving flag. */
  class Modal {
    const expense: Option<Expense>
    var form: Form
    var error: string
    var saving: bool

    constructor (expense: Option<Expense>, today: Date)
      ensures this.expense == expense && form == InitialForm(expense, today) && error == "" && !saving
    {
      this.expense := expense;
      form := InitialForm(expense, today);
      error, saving := "", false;
    }

    /**
     * `handleSubmit`: sends the request for this modal; a saved row goes to
     * the page's `handleSave` (create or update as the request was) and
     * closes the modal; a rejection shows its message and keeps it open.
     */
    method Submit(page: Page, outcome: SaveOutcome) returns (req: Request)
      modifies this, page
      ensures req == SubmitRequest(expense, old(form)) && form == old(form) && !saving
      ensures outcome.Saved? ==>
        && error == ""
        && page.expenses == (if req.Post? then Prepend(outcome.row, old(page.expenses))
                             else ReplaceById(old(page.expenses), outcome.row))
        && !page.showModal
      ensures outcome.SaveRejected? ==>
        && error == Describe(outcome.response, SomethingWentWrong)
        && page.expenses == old(page.expenses) && page.showModal == old(page.showModal)
      ensures page.deleteTarget == old(page.deleteTarget) && page.editExpense == old(page.editExpense)
    {
      saving := true;
      error := "";
      req := SubmitRequest(expense, form);
      match outcome {
        case Saved(row) =>
          page.HandleSave(row, if req.Put? then Update else Create);
          page.CloseModal();
        case SaveRejected(response) =>
          error := Describe(response, SomethingWentWrong);
      }
      saving := false;
    }

    /**
     * The form's submit event: the browser blocks a form that fails its
     * checks, and nothing is sent; otherwise `handleSubmit` runs.
     */
    method SubmitForm(page: Page, outcome: SaveOutcome) returns (sent: Option<Request>)
      modifies this, page
      ensures !BrowserAccepts(old(form)) ==> sent.None? && unchanged(this) && unchanged(page)
      ensures BrowserAccepts(old(form)) ==> sent == Some(SubmitRequest(expense, old(form))) && !saving
      ensures BrowserAccepts(old(form)) && expense.Some? ==> sent.value.form.amount.Some?
    {
      if !BrowserAccepts(form) {
        return None;
      }
      var req := Submit(page, outcome);
      sent := Some(req);
    }
  }
}
