# SpendWise expense tracker — a Dafny model

SpendWise is an expense tracker. An Express server keeps users and their
expenses in a MariaDB database through Sequelize. A React client holds the
signed-in session, guards its routes, lists and edits expenses, and draws a
dashboard. This project models the logic of both halves:

- **the database** (`store.dfy`): a class `Db` with a users table and an
  expenses table, each a map from auto-incremented id to row. The `Valid()`
  invariant states what the schema declares: the column widths, the unique
  e-mail, a `userId` that names an existing user, and the cascade from a
  user to their expenses.
- **the record models** (`expense_model.dfy`, `user_model.dfy`): the
  expense row with its defaults; the user row with its `beforeCreate`
  hashing hook and `matchPassword`.
- **the expense routes** (`expense_routes.dfy`):
  - `List` builds the `where` clause (caller, category, month range) and
    orders by date, then `createdAt`, newest first.
  - `Create` runs the validation chain, then fills the defaults.
  - `Update` merges a patch, using `??` for four fields and
    `!== undefined` for the notes.
  - `Update` and `Delete` check 404 before 403.
- **the auth routes** (`auth_routes.dfy`): `Register`, `Login` and `/me`,
  and the seven-day token. Hashing, comparison, e-mail checking and token
  signing are parameters.
- **the session** (`auth_context.dfy`): `authReducer` as the function
  `Reduce`, and the provider as a class whose fields are the reducer state
  and `localStorage`. Its methods are `loadUser`, `register`, `login`,
  `logout` and `clearError`.
- **routing** (`routing.dfy`): the `PrivateRoute` and `PublicRoute`
  decisions, and the route table with its catch-all.
- **the expenses page** (`expenses_page.dfy`): the modal form and its
  PUT/POST choice, the fetch parameters, and the in-memory list after a
  create, update or delete.
- **the dashboard** (`dashboard.dfy`):
  - totals, this month's expenses and the average card;
  - the category dictionary, filled by a loop as the page does;
  - the chart order, the top category and the six most recent transactions.
- **the registration page** (`register_page.dfy`) and **the avatar
  initials** (`layout.dfy`).
- **shared pieces**: `calendar.dfy` (Gregorian dates and month ranges),
  `client_errors.dfy` (how the client picks an error message) and
  `http.dfy` (responses).

Amounts are whole cents throughout. This matches `DECIMAL(10,2)`, so an
amount fits when `|cents| < 10^10`. The database is MariaDB in strict mode,
so a value too wide for its column makes the insert or update fail. The
route's `catch` then answers 500 "Server error". The authenticated caller
arrives as a given user or id, and "today" and "now" are parameters.

Two facts of the code shape what the model admits:

- The server accepts any non-empty category. The client offers eight, but
  nothing on the server limits a category to them.
- `PUT` runs no validation at all. An update may store an amount of 0 or
  below, or an empty title.

## Model

| member | source | states |
|---|---|---|
| Calendar.DaysInMonth | server/routes/expenses.js:27 | the last day of month m (`new Date(y, m, 0)`) is 28..31; 29 exactly for February of a Gregorian leap year, 28 for other Februaries, 30 exactly for April, June, September and November |
| Calendar.NextDay | server/routes/expenses.js:26-28 | the day after a real date is a real date and comes strictly later |
| Calendar.FirstDay | server/routes/expenses.js:26 | `new Date(y, m - 1, 1)` is a real date: day 1 of the queried year and month |
| Calendar.LastDay | server/routes/expenses.js:27 | `new Date(y, m, 0)` is a real date in the same year and month |
| Calendar.LastDayPrecedesNextMonth | server/routes/expenses.js:26-27 | the day after the month's end date is the first day of the next month, so the two bounds leave no gap and no overlap |
| Calendar.MonthRangeExact | server/routes/expenses.js:24-29 | a real date lies between the two bounds (both inclusive) iff its year and month are the queried ones |
| Calendar.LeapFebruaryExample | server/routes/expenses.js:24-29 | "2024-02" keeps 2024-02-29 and drops 2024-03-01; February's last day is the 28th in 2023 and 1900 and the 29th in 2000 |
| ExpenseModel.Build | server/models/Expense.js:13-34 | `Expense.create` on attributes: refused with a not-null error iff title or amount is missing; otherwise title and amount are kept, the category is the given one or 'Other', the date the given one or today, the notes nullable, and id, owner and `createdAt` set |
| ExpenseModel.FitsColumns | server/models/Expense.js:13-30 | a row fits when the title has at most 255 characters, the amount fits `DECIMAL(10,2)`, the category at most 100 characters, and the date is a real date |
| ExpenseModel.DefaultCategoryOnlyWhenAbsent | server/models/Expense.js:21-25 | the stored category is 'Other' exactly when none was supplied or 'Other' was supplied |
| UserModel.BeforeCreate | server/models/User.js:31-34 | the hook replaces only the password, by the hash of the plaintext; id, name and e-mail are kept |
| UserModel.FitsColumns | server/models/User.js:13-26 | a row fits when the name has at most 100 characters and the e-mail and the password hash at most 255 |
| UserModel.MatchPassword | server/models/User.js:39-41 | `compare` of the entered password against the stored hash; its meaning is stated by the row below |
| UserModel.HookThenMatch | server/models/User.js:31-41 | when `compare(p, h)` holds exactly for `h == hash(p)` and `hash` tells passwords apart, a user created through the hook matches its registered plaintext and no other password |
| Store.Db.Valid | server/models/Expense.js:5-43 | the schema invariant: every row sits under its own id below the counter and fits its columns, e-mails are unique (User.js), and every expense's `userId` names a stored user |
| Store.Db.constructor | server/models/User.js:5-36 | empty tables satisfy the schema invariant |
| Store.Db.CreateUser | server/models/User.js:8-36 | `isEmail` fails, or the e-mail is already present, or a column overflows: that error and no change. Otherwise the hooked row goes in under a fresh id, the counter advances, expenses are untouched, and the invariant holds |
| Store.Db.CreateExpense | server/models/Expense.js:5-43 | a missing title or amount, a column overflow, or a `userId` that names no user: that error and no change. Otherwise the built row goes in under a fresh id, users are untouched, and the invariant holds |
| Store.Db.SaveExpense | server/routes/expenses.js:94-100 | the row is replaced exactly when every value fits its column; otherwise nothing changes |
| Store.Db.DestroyExpense | server/routes/expenses.js:123 | exactly that id leaves the table; users and the counters are unchanged |
| Store.Db.DestroyUser | server/models/Expense.js:42 | the user goes, every expense with that `userId` goes with them, and every other expense stays as it was |
| ExpenseRoutes.BuildWhere | server/routes/expenses.js:16-29 | the clause always scopes to the caller; it filters by category iff the query category is non-empty and not 'All'; it filters by a date range iff a month is given |
| ExpenseRoutes.Selects | server/routes/expenses.js:16-34 | what the database selects for a `where` object: the owner equal, the category equal when set, and the date between the two bounds inclusive when set |
| ExpenseRoutes.ListSelection | server/routes/expenses.js:16-29 | a row is selected iff it is the caller's, its category equals the query's when the filter is on, and its date is in the queried month when one is given |
| ExpenseRoutes.AllMeansNoCategoryFilter | server/routes/expenses.js:19 | 'All' selects the same rows as no category, and sets no category condition |
| ExpenseRoutes.InsertNewestFirst | server/routes/expenses.js:33 | one insertion step of the ordering adds exactly that row (its length, multiset and membership) |
| ExpenseRoutes.InsertKeepsOrder | server/routes/expenses.js:33 | inserting into a list ordered by date, then `createdAt`, descending keeps it ordered |
| ExpenseRoutes.InsertKeepsIdsDistinct | server/routes/expenses.js:33 | inserting a row with a new id keeps the ids distinct |
| ExpenseRoutes.List | server/routes/expenses.js:14-36 | the result holds exactly the stored rows the clause selects, each once, only the caller's, ordered by date descending with ties by `createdAt` descending |
| ExpenseRoutes.ValidateCreate | server/routes/expenses.js:47-56 | no errors iff the title is non-empty, the amount is above 0 and the category is non-empty; each message is present iff its check fails, no other entry appears, there is one entry per failing check, and they come in the chain's order (title, amount, category) |
| ExpenseRoutes.OrNull | server/routes/expenses.js:66 | `notes || null` keeps the notes iff they are non-empty, and null otherwise |
| ExpenseRoutes.CreateAttributes | server/routes/expenses.js:59-68 | the owner is the caller and never a body field; title, amount and category pass through; the date is the body's or today; the notes are the body's or null |
| ExpenseRoutes.ValidBodyNeedsNoModelDefaults | server/routes/expenses.js:47-68 | after validation passes, the model builds the row and the category default is never used |
| ExpenseRoutes.CreatedRowShape | server/routes/expenses.js:59-68 | a validated body gives a row with the caller as owner, positive amount, the body's non-empty title and category, and the date and notes as above |
| ExpenseRoutes.Create | server/routes/expenses.js:45-76 | a failed validation: 400 with that error list and the store unchanged. Success is 201 with the inserted row exactly when the row fits its columns and the caller exists. After validation passes, every other outcome is 500 "Server error" with the store unchanged |
| ExpenseRoutes.Coalesce | server/routes/expenses.js:95-98 | `v ?? current`: only null and undefined fall back to the current value; "" and 0 are kept |
| ExpenseRoutes.DefinedOr | server/routes/expenses.js:99 | `v !== undefined ? v : current`: undefined keeps the current notes, null clears them, a string replaces them |
| ExpenseRoutes.Merge | server/routes/expenses.js:92-100 | id, owner and `createdAt` never change; title, amount, category and date take the patch's value when one is given and keep the old one when the patch says null or nothing; notes take a given value as is, become null for null, and stay for nothing |
| ExpenseRoutes.MergeAbsenceRules | server/routes/expenses.js:95-99 | the old title or amount survives iff the patch value is undefined or null (or equal); a given category or date replaces the old one and a null or undefined one keeps it; '' and 0 overwrite; given notes are stored as given, null notes clear them, '' notes store ''; undefined notes keep the old ones |
| ExpenseRoutes.MergeAlgebra | server/routes/expenses.js:94-100 | an empty patch changes nothing, merging the same patch twice is merging it once, and two merges in a row are one merge of the combined patch |
| ExpenseRoutes.Update | server/routes/expenses.js:80-107 | 404 "Expense not found" if the id is absent, else 403 "Not authorized" if another user owns it, both with the store unchanged; otherwise the merged row is stored and returned, or 500 with no change when a column rejects it |
| ExpenseRoutes.Delete | server/routes/expenses.js:111-129 | 404, then 403 as for update, with the store unchanged; otherwise exactly that row is removed and "Expense deleted" answered |
| AuthRoutes.GenerateToken | server/routes/auth.js:9-11 | the token carries the user's id, is signed with the secret, and expires 604800 seconds (7 days) after issue |
| AuthRoutes.TokenRoundTrip | server/routes/auth.js:9-11 | verifying with the same secret yields the id exactly while the 7 days have not run out; a token signed with another key never verifies |
| AuthRoutes.ValidateRegister | server/routes/auth.js:17-26 | no errors iff the name is non-empty, the e-mail passes `isEmail` and the password has at least 6 characters; each message is present iff its check fails, no other entry appears, there is one entry per failing check, and they come in the chain's order (name, e-mail, password) |
| AuthRoutes.Register | server/routes/auth.js:15-49 | a failed validation: 400 with the errors and no change. A taken e-mail: 400 "User already exists with that email" and no change. Otherwise exactly one user is added, holding `hash(password)`, with 201 and id, name, e-mail and a token for that id (no password), or 500 with no change when the insert fails |
| AuthRoutes.ValidateLogin | server/routes/auth.js:55-63 | no errors iff the e-mail passes `isEmail` and the password key is present (null counts as present); each message is present iff its check fails, no other entry appears, there is one entry per failing check, and they come in the chain's order (email, password) |
| AuthRoutes.Login | server/routes/auth.js:53-89 | reads only. An unknown e-mail and a wrong password both give the same 400 "Invalid credentials". A null password reaching `compare` gives 500. A match gives 200 with the same shape as register |
| AuthRoutes.RegisterThenLogin | server/routes/auth.js:36-83 | when `compare` accepts `hash(p)` for p, logging in right after a successful register with the same e-mail and password answers 200 with the registration's body |
| AuthRoutes.Me | server/routes/auth.js:93-95 | `/me` answers 200 with exactly the identity the middleware attached |
| ClientErrors.Describe | client/src/context/AuthContext.jsx:86-89 | the message is the response's `message` when truthy, else the first error's `msg` when truthy, else the fallback; it is never empty when the fallback is not |
| ClientErrors.Messages | server/routes/expenses.js:55 | the client sees one `msg` per validation error, in order |
| ClientErrors.ShowsServerReason | client/src/context/AuthContext.jsx:86-89 | across the wire, a server `message` is shown verbatim, a validation failure shows its first error's `msg`, and an empty list falls back |
| AuthContext.Reduce | client/src/context/AuthContext.jsx:13-52 | each action's new state: AUTH_SUCCESS sets user and token and clears loading and error; AUTH_ERROR clears user and token and sets the error; USER_LOADED sets the user and keeps token and error; LOGOUT clears all; CLEAR_ERROR changes only the error; SET_LOADING only loading; anything else changes nothing |
| AuthContext.SettlingActions | client/src/context/AuthContext.jsx:15-44 | success, error, user-loaded and logout always end loading; clear-error and unknown actions never touch it |
| AuthContext.OutcomeOverridesLoading | client/src/context/AuthContext.jsx:15-44 | after success, error or logout the state no longer depends on the previous one, so a preceding SET_LOADING is invisible |
| AuthContext.ClearErrorIsIdempotent | client/src/context/AuthContext.jsx:45-46 | clearing the error twice is clearing it once, and it keeps user and loading |
| AuthContext.InitialState | client/src/context/AuthContext.jsx:6-11 | the first state is loading with no error; it holds a user iff the `user` key holds one, and then exactly that user; it holds a token iff the `token` key holds text, and then exactly that text |
| AuthContext.AuthProvider.constructor | client/src/context/AuthContext.jsx:54-55 | the provider starts from the initial state of the given storage |
| AuthContext.AuthProvider.Dispatch | client/src/context/AuthContext.jsx:55 | dispatching applies the reducer and leaves storage alone |
| AuthContext.AuthProvider.LoadUser | client/src/context/AuthContext.jsx:58-74 | no token: an error without a message. A loaded user: USER_LOADED. A failed check: both keys removed, then the error. Every path ends with loading false |
| AuthContext.AuthProvider.Authenticate | client/src/context/AuthContext.jsx:76-112 | success writes both `token` and `user` keys and ends holding that user and token; failure keeps storage and ends with user and token cleared and the described error |
| AuthContext.AuthProvider.Register | client/src/context/AuthContext.jsx:76-93 | as above with the default "Registration failed"; the result is true iff the request succeeded |
| AuthContext.AuthProvider.Login | client/src/context/AuthContext.jsx:95-112 | as above with the default "Login failed" |
| AuthContext.AuthProvider.Logout | client/src/context/AuthContext.jsx:114-118 | both storage keys removed, and the state cleared with loading false |
| AuthContext.AuthProvider.ClearError | client/src/context/AuthContext.jsx:120 | only the error changes, to none |
| AuthContext.StoredSessionReloads | client/src/context/AuthContext.jsx:6-11 | after a successful login or register, a page reload starts with that same user and token |
| AuthContext.LoggedOutStorageReloadsEmpty | client/src/context/AuthContext.jsx:114-118 | after logout, a reload starts with no user and no token |
| Routing.PrivateRoute | client/src/components/PrivateRoute.jsx:4-15 | loading: the spinner whatever the user; otherwise the children iff there is a user, else a replace-redirect to /login |
| Routing.PublicRoute | client/src/App.jsx:11-22 | loading: the spinner; otherwise the children iff there is no user, else a replace-redirect to / |
| Routing.GuardsReadOnlyUserAndLoading | client/src/components/PrivateRoute.jsx:5 | both guards depend only on user and loading; a stored token without a user does not admit |
| Routing.ExactlyOneGuardAdmits | client/src/App.jsx:22 | with loading over, exactly one of the two guards renders its children, for every user value |
| Routing.RouteFor | client/src/App.jsx:28-54 | /login and /register are public, / and /expenses private, and every other path falls to the catch-all; /login shows the login page, /register the registration page, / the dashboard and /expenses the expenses page |
| Routing.Render | client/src/App.jsx:25-56 | one render of a path: the public or private guard's decision applied to the page the table binds, and the catch-all's navigation to / (its meaning is stated by the rows below) |
| Routing.Settle | client/src/App.jsx:25-56 | follows the navigations a render asks for, at most the given number of times (its meaning is stated by the rows below) |
| Routing.EveryPathSettles | client/src/App.jsx:25-56 | with loading over, any path reaches a page within two navigations; it is a private page inside the layout iff there is a user; with a user it is the expenses page at /expenses and the dashboard elsewhere; without one it is the registration page at /register and the login page elsewhere |
| Routing.LoadingShowsSpinner | client/src/App.jsx:14-20 | while loading, every path shows the spinner |
| Routing.AuthRequestRemountsPage | client/src/App.jsx:11-22 | at /login or /register, SET_LOADING replaces the shown page by the spinner; a following AUTH_ERROR shows the same page again, and AUTH_SUCCESS navigates to / |
| Layout.SplitOnSpace | client/src/components/Layout.jsx:14 | `split(' ')` gives at least one piece and no piece holds a space |
| Layout.Upper | client/src/components/Layout.jsx:17 | upper-casing keeps the length and maps each character by itself |
| Layout.Initials | client/src/components/Layout.jsx:13-18 | the initials are one or two characters |
| Layout.HeadsAreWordStarts | client/src/components/Layout.jsx:14-16 | the split/first-character/join chain yields exactly the characters that start a word (follow a space or the start), and empty pieces add nothing |
| Layout.InitialsCharacterised | client/src/components/Layout.jsx:13-18 | no user or name, or a name with no word: '?'; otherwise the upper-cased first characters of the first two words, in order |
| Layout.LaterWordsIgnored | client/src/components/Layout.jsx:18 | once a name has two words, appending anything does not change its initials |
| Layout.InitialsExamples | client/src/components/Layout.jsx:13-18 | an empty name, a name of spaces and a missing name all give '?' |
| ExpensesPage.InitialForm | client/src/pages/Expenses.jsx:27-35 | a new form is empty with category 'Food' and today's date; an edit form copies the expense, with '' for null notes and 'Food' for an empty category |
| ExpensesPage.SubmitRequest | client/src/pages/Expenses.jsx:49-55 | PUT to the expense's id iff editing, POST otherwise, always sending the form |
| ExpensesPage.FormPatch | client/src/pages/Expenses.jsx:50 | the JSON of a PUT: every key present with the form's value, so no field of the row is kept by `??` |
| ExpensesPage.FormBody | client/src/pages/Expenses.jsx:53 | the JSON of a POST: title, category, date and notes as the form holds them, the amount only when the form has one, and no `userId` |
| ExpensesPage.BrowserAccepts | client/src/pages/Expenses.jsx:95-113 | the browser submits the modal only with a non-empty title and an amount of at least 0.01 |
| ExpensesPage.UntouchedEditRoundTrip | client/src/pages/Expenses.jsx:27-50 | saving an untouched edit form rewrites the row unchanged except null notes become '' and an empty category becomes 'Food'; the same '' notes sent by POST are stored as null |
| ExpensesPage.BlankAddFormRejected | client/src/pages/Expenses.jsx:27-53 | the browser's checks stop an untouched add form; were it sent anyway, the server would refuse the title and the amount, and the modal would show the title's message |
| ExpensesPage.Prepend | client/src/pages/Expenses.jsx:224 | a created expense goes first and the rest follow unchanged |
| ExpensesPage.ReplaceById | client/src/pages/Expenses.jsx:226 | an update keeps length and order and replaces exactly the entries with that id |
| ExpensesPage.RemoveById | client/src/pages/Expenses.jsx:234 | the remaining entries are exactly those with another id, and the list does not grow |
| ExpensesPage.RemoveByIdSplits | client/src/pages/Expenses.jsx:234 | removal works piecewise over any split, so the order of the rest is preserved |
| ExpensesPage.RemoveListedId | client/src/pages/Expenses.jsx:234 | with distinct ids, removing a listed id shortens the list by exactly one |
| ExpensesPage.RemoveAbsentId | client/src/pages/Expenses.jsx:234 | removing an id that is not listed leaves the list as it was |
| ExpensesPage.FetchParams | client/src/pages/Expenses.jsx:206-208 | the category is sent iff it is not 'All', the month iff it is not empty, each unchanged |
| ExpensesPage.ClientAndServerAgreeOnCategory | client/src/pages/Expenses.jsx:207 | the server filters by category exactly when the page's filter is neither 'All' nor empty |
| ExpensesPage.Page.constructor | client/src/pages/Expenses.jsx:196-202 | an empty loading page with no modal, no edit or delete target, filter 'All' and no month |
| ExpensesPage.Page.FetchExpenses | client/src/pages/Expenses.jsx:204-216 | sends the filter parameters, takes the fetched list when there is one, keeps it otherwise, and ends loading |
| ExpensesPage.Page.HandleSave | client/src/pages/Expenses.jsx:222-228 | a create prepends, an update replaces by id |
| ExpensesPage.Page.AskDelete | client/src/pages/Expenses.jsx:382 | selecting a row makes it the delete target |
| ExpensesPage.Page.CancelDelete | client/src/pages/Expenses.jsx:415 | cancelling the confirmation clears the delete target |
| ExpensesPage.Page.HandleDelete | client/src/pages/Expenses.jsx:230-239 | no target: nothing. Otherwise success removes exactly the target's id and failure keeps the list, with the target cleared either way |
| ExpensesPage.Page.OpenEdit | client/src/pages/Expenses.jsx:241-244 | the modal opens on that expense |
| ExpensesPage.Page.OpenAdd | client/src/pages/Expenses.jsx:246-249 | the modal opens with no expense |
| ExpensesPage.Page.CloseModal | client/src/pages/Expenses.jsx:401 | the modal closes |
| ExpensesPage.Modal.constructor | client/src/pages/Expenses.jsx:25-37 | the modal starts from the initial form with no error and not saving |
| ExpensesPage.Modal.Submit | client/src/pages/Expenses.jsx:43-66 | sends the request chosen by edit/add. A saved row goes into the page's list by create or update and closes the modal. A rejection shows the server's reason or "Something went wrong". Saving ends either way |
| ExpensesPage.Modal.SubmitForm | client/src/pages/Expenses.jsx:84-116 | the browser blocks a form with an empty title or an amount missing or under 0.01 (nothing is sent and nothing changes); otherwise the request is sent as above, and an edit always carries an amount |
| Dashboard.TotalSpend | client/src/pages/Dashboard.jsx:97 | the sum of the amounts; its property is stated by the row below and by CategoryMapMeaning |
| Dashboard.TotalSpendSplits | client/src/pages/Dashboard.jsx:97 | the total of two lists together is the sum of their totals |
| Dashboard.ThisMonth | client/src/pages/Dashboard.jsx:99-103 | exactly the expenses whose year and month are today's, each as many times as in the list, so its length and sum are the card's count and spend |
| Dashboard.ThisMonthSplits | client/src/pages/Dashboard.jsx:100-103 | the filter works piecewise over any split of the list, so it keeps the list's order |
| Dashboard.ThisMonthIsServerMonth | client/src/pages/Dashboard.jsx:99-103 | for real dates, the dashboard's month is the same set the server's month filter selects |
| Dashboard.AverageCard | client/src/pages/Dashboard.jsx:156 | an average exists iff there is at least one expense, and it is the total over the count |
| Dashboard.CategoryOf | client/src/pages/Dashboard.jsx:109 | an expense's category key is never empty: an empty category counts as 'Other' |
| Dashboard.Add | client/src/pages/Dashboard.jsx:110 | adding to the dictionary gains that key, adds to its value only, adds to the sum and keeps keys distinct |
| Dashboard.TallyFacts | client/src/pages/Dashboard.jsx:107-111 | visiting expenses keeps keys distinct, gains exactly their categories, and adds each expense's amount to its category and to the sum |
| Dashboard.CategoryMap | client/src/pages/Dashboard.jsx:107-111 | the loop builds the dictionary of all the expenses |
| Dashboard.CategoryMapMeaning | client/src/pages/Dashboard.jsx:107-111 | one key per distinct category, each holding the sum of that category's amounts; the values sum to the total spend |
| Dashboard.InsertDesc | client/src/pages/Dashboard.jsx:114 | one step of the sort adds exactly that element |
| Dashboard.InsertDescSorted | client/src/pages/Dashboard.jsx:114 | inserting into a list sorted by descending key keeps it sorted |
| Dashboard.SortDesc | client/src/pages/Dashboard.jsx:114 | the sort is a permutation and orders by non-increasing key |
| Dashboard.ColorOf | client/src/pages/Dashboard.jsx:118 | a category outside the seven named ones gets the 'Other' colour |
| Dashboard.Slices | client/src/pages/Dashboard.jsx:115-119 | each entry becomes a slice with its name, value and colour, in the same order |
| Dashboard.ChartData | client/src/pages/Dashboard.jsx:113-119 | the chart entries; their properties are stated by ChartOrdered, Slices and SortDesc |
| Dashboard.ChartOrdered | client/src/pages/Dashboard.jsx:113-119 | one slice per dictionary key, in non-increasing order of value |
| Dashboard.TopCategory | client/src/pages/Dashboard.jsx:121 | the top-category card; its properties are stated by the three rows below |
| Dashboard.NoExpensesNoTopCategory | client/src/pages/Dashboard.jsx:121 | with no expenses the top category is '—' |
| Dashboard.TopEntry | client/src/pages/Dashboard.jsx:121 | with expenses, the top category is the first chart entry's name and is one of their categories |
| Dashboard.TopCategoryIsLargest | client/src/pages/Dashboard.jsx:121 | no category's spend exceeds the top category's |
| Dashboard.DayKeyOrders | client/src/pages/Dashboard.jsx:124 | for real dates, the comparison key orders exactly as the calendar does |
| Dashboard.RecentExpenses | client/src/pages/Dashboard.jsx:123-125 | the recent list; its properties are stated by the two rows below |
| Dashboard.RecentExpensesShape | client/src/pages/Dashboard.jsx:123-125 | min(6, n) expenses, all drawn from the list, newest date first |
| Dashboard.RecentExpensesNewest | client/src/pages/Dashboard.jsx:123-125 | no expense left out of the recent list is newer than one shown |
| RegisterPage.ShownError | client/src/pages/Register.jsx:35 | the page's own error wins; otherwise the session's error shows iff it is non-empty; nothing empty is ever shown |
| RegisterPage.MismatchShadowsSessionError | client/src/pages/Register.jsx:35 | a mismatch message hides any session error |
| RegisterPage.FormAccepts | client/src/pages/Register.jsx:53-110 | the browser's checks: every field filled in, the e-mail well-formed, and both password fields at least 6 characters |
| RegisterPage.RejectedRegistrationShowsReason | client/src/pages/Register.jsx:35 | with no local error, the alert shows a session error holding the described reason exactly (see "## Findings": in the composed app the page does not stay mounted) |
| RegisterPage.Register.constructor | client/src/pages/Register.jsx:10 | no local error and no navigation yet |
| RegisterPage.Register.Mount | client/src/pages/Register.jsx:18-20 | mounting clears only the session's error |
| RegisterPage.Register.UserChanged | client/src/pages/Register.jsx:14-16 | a signed-in user sends the page home |
| RegisterPage.Register.HandleSubmit | client/src/pages/Register.jsx:22-33 | the local error is cleared first. Different passwords: "Passwords do not match" and the session untouched. Equal passwords: `register` runs with its storage and state effects, and the page goes home iff it succeeded; after a rejection this page, if it stays mounted, shows the described reason |
| RegisterPage.Register.Submit | client/src/pages/Register.jsx:53-110 | the browser blocks a form with an empty field or a password under 6 characters; otherwise the submit handler runs |
| RegisterPage.SubmitAsComposed | client/src/pages/Register.jsx:18-33 | the submit handler inside the route: with equal passwords the spinner replaces the page while the request runs; a rejection mounts a new page whose mount clears the session's error, so the alert shows nothing; a success navigates home |

## Left out

- `server/server.js` (CORS, database connection and sync, `listen`) is I/O wiring and is not part of this model.
- `client/src/pages/Login.jsx` is not modelled as a page of its own. Its mount effect, its submit handler and its alert are those of the registration page without the password check, and the same unmount under the spinner applies to it (`Routing.AuthRequestRemountsPage`, and "## Findings").
- JSX markup, modal rendering and the `DonutChart` canvas drawing: these are browser drawing, not logic.
- Floating-point sums, `parseFloat` and `toFixed` formatting. Amounts are integer cents, so rounding is not modelled.
- The internals of bcrypt, `jsonwebtoken` and express-validator's `isEmail`: they are uninterpreted function parameters. So "the stored password never equals the plaintext" cannot be stated.
- The auth middleware is not part of this model: the caller is a given identity.
- Sequelize, axios, async ordering and React re-render timing. In particular, the race between `findOne` and `create` in register is not modelled; the store's unique invariant covers the insert itself.
- Time zones and JS `Date`: dates are year, month and day, and "now" is a parameter. Left out with them:
  - the dashboard parses dates as UTC but reads the month in local time;
  - the new-expense form takes today's date in UTC;
  - parsing the "YYYY-MM" month string. A well-formed month (1..12) is assumed, and JS `Date` overflow for malformed months is not modelled;
  - `new Date(year, month - 1, 1)` reads the years 0 to 99 as 1900 to 1999, so "0024-02" selects February 1924. The model takes the year as written.
- Calendar.MonthRangeExact: stated for the year as written; it does not hold for the years 0 to 99, which JS `Date` maps into the 1900s.
- MariaDB's default collation ignores letter case and trailing spaces. The model compares strings exactly, in two places:
  - e-mail lookups in `Store.Db.CreateUser`, `AuthRoutes.Register` and `AuthRoutes.Login`;
  - the category filter in `ExpenseRoutes.Selects`, `ExpenseRoutes.ListSelection` and `ExpenseRoutes.List`. In the database, `category=food` also returns 'Food' rows.
- `updatedAt`: no logic reads it.
- React Router's case-insensitive and trailing-slash matching: paths match exactly.
- Unicode: `toUpperCase` is modelled for ASCII letters only, and a name's first UTF-16 unit is taken as one character.
- Query parameters given twice (arrays) and a non-numeric `:id`: the model takes one string and a number.
- Dashboard.Add: the page's dictionary is a plain `{}`, so it inherits the keys of `Object.prototype`. For a category named like an inherited member ("toString", "constructor", "valueOf", "hasOwnProperty" and the rest), `categoryMap[cat] || 0` reads the inherited function, and the sum becomes a string. The legend's `toFixed` then throws and the dashboard does not render. A category "__proto__" is never stored. The model's dictionary has no inherited keys, so it treats these names like any other.
- Dashboard.TallyFacts: states the fold over a dictionary without inherited keys. For the inherited names above, the source's fold yields strings or drops the key.
- Dashboard.CategoryMap: the loop's dictionary has no inherited keys, so the names above are tallied like any other.
- Dashboard.CategoryMapMeaning: false in the source once a category is named like an `Object.prototype` member: such a key holds a string rather than the category's spend, and a "__proto__" category is missing, so the values no longer add up to the total.
- Dashboard.ColorOf: for a name like "constructor", `CATEGORY_COLORS[name]` yields the inherited function rather than "#6b7280". The model gives the 'Other' colour to every name outside the seven.
- JavaScript object keys that look like integers are enumerated first regardless of insertion order. The category dictionary keeps insertion order for every key, so the tie order of equal chart values can differ for such category names.
- ExpensesPage.FormPatch: requires an amount. The amount input is `required` with `min="0.01"`, so the browser never submits an edit form without one (`ExpensesPage.Modal.SubmitForm`). A client other than this page could send '' (a 500 in the database); that is not modelled.
- ExpenseModel.FitsColumns: no length limit on the TEXT notes column (65,535 bytes). An oversized note is one more strict-mode 500; bytes of UTF-8 are not modelled.
- AuthRoutes.Register: `jwt.sign` throws when the secret is unset. The user is then already inserted, and the answer is 500. Token signing is total in the model.
- A password in the JSON body that is not a string makes bcrypt throw inside the hook (a 500). Bodies here hold strings only.
- Dashboard.SortDesc: the sort is stable, as `Array.prototype.sort` is, but no contract states it. The tie order of equal chart values is therefore stated only through the definition.
- AuthContext.StoredSessionReloads: the stored user is kept as a value, standing for its JSON text, so serialisation is not modelled.

## Findings

| source | as written | input that shows it | evidently intended | confidence | as-written member | corrected member |
|---|---|---|---|---|---|---|
| client/src/pages/Register.jsx:18-20 | `register` dispatches SET_LOADING, so `PublicRoute` (App.jsx:14-20) shows the spinner instead of the page and the page unmounts; after AUTH_ERROR a new page mounts, and its mount effect `clearError()` wipes the reason. The typed fields are lost too. Login.jsx:15-17 does the same | equal passwords and a registration the server rejects, for example with "User already exists with that email" | the page stays on screen and its alert shows the reason | not executed | RegisterPage.SubmitAsComposed | RegisterPage.Register.HandleSubmit |
