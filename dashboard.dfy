/**
 * The dashboard's aggregates over the caller's expenses, with amounts in
 * whole cents: the totals, this month's expenses, the per-category map and
 * its chart order, the top category, and the most recent transactions.
 */
module Dashboard {
  import opened Wrappers
  import opened Calendar
  import opened ExpenseModel

  // ---------------------------------------------------------------- totals

  /** `expenses.reduce((sum, e) => sum + e.amount, 0)`. */
  function TotalSpend(es: seq<Expense>): int {
    if es == [] then 0 else es[0].amount + TotalSpend(es[1..])
  }

  lemma {:induction false} TotalSpendSplits(a: seq<Expense>, b: seq<Expense>)
    ensures TotalSpend(a + b) == TotalSpend(a) + TotalSpend(b)
  {
    if a != [] {
      assert (a + b)[1..] == a[1..] + b;
      TotalSpendSplits(a[1..], b);
    } else {
      assert a + b == b;
    }
  }

  /** `d.getMonth() === now.getMonth() && d.getFullYear() === now.getFullYear()`. */
  predicate SameMonth(e: Expense, today: Date) {
    e.date.year == today.year && e.date.month == today.month
  }

  /**
   * Lines 99-103: the expenses dated in the year and month of `today`, each
   * as often as it occurs in the list.
   */
  function ThisMonth(es: seq<Expense>, today: Date): (r: seq<Expense>)
    ensures |r| <= |es|
    ensures forall e :: e in r <==> e in es && SameMonth(e, today)
    ensures forall e :: multiset(r)[e] == if SameMonth(e, today) then multiset(es)[e] else 0
  {
    if es == [] then []
    else
      assert es == [es[0]] + es[1..];
      (if SameMonth(es[0], today) then [es[0]] else []) + ThisMonth(es[1..], today)
  }

  /** The filter keeps the list's order: it works piecewise over any split. */
  lemma {:induction false} ThisMonthSplits(a: seq<Expense>, b: seq<Expense>, today: Date)
    ensures ThisMonth(a + b, today) == ThisMonth(a, today) + ThisMonth(b, today)
  {
    if a == [] {
      assert a + b == b;
    } else {
      assert (a + b)[1..] == a[1..] + b;
      ThisMonthSplits(a[1..], b, today);
    }
  }

  /** The dashboard's month is the server's month filter for the current month. */
  lemma ThisMonthIsServerMonth(es: seq<Expense>, today: Date, e: Expense)
    requires ValidDate(today) && ValidDate(e.date)
    ensures e in ThisMonth(es, today) <==> e in es && InMonthRange(e.date, YearMonth(today.year, today.month))
  {
    MonthRangeExact(e.date, YearMonth(today.year, today.month));
  }

  /** The average card: a mean only when there is an expense, otherwise the fixed '0.00'. */
  datatype Average = NoAverage | Mean(total: int, count: nat)

  function AverageCard(es: seq<Expense>): (r: Average)
    ensures r.Mean? <==> |es| > 0
    ensures r.Mean? ==> r.total == TotalSpend(es) && r.count == |es| && r.count > 0
  {
    if |es| > 0 then Mean(TotalSpend(es), |es|) else NoAverage
  }

  // ---------------------------------------------------------------- the category map

  const OtherCategory: string := "Other"

  /** `e.category || 'Other'`. */
  function CategoryOf(e: Expense): (c: string)
    ensures c != ""
  {
    if e.category != "" then e.category else OtherCategory
  }

  /** One key of the category dictionary with its running total; keys keep their insertion order. */
  datatype Entry = Entry(name: string, value: int)

  function Names(m: seq<Entry>): set<string> {
    if m == [] then {} else {m[0].name} + Names(m[1..])
  }

  function ValueSum(m: seq<Entry>): int {
    if m == [] then 0 else m[0].value + ValueSum(m[1..])
  }

  /** A dictionary has each key once. */
  predicate DistinctNames(m: seq<Entry>) {
    m == [] || (m[0].name !in Names(m[1..]) && DistinctNames(m[1..]))
  }

  /** The dictionary's value for `c`, with 0 for a missing key as `(categoryMap[cat] || 0)` reads it. */
  function ValueOf(m: seq<Entry>, c: string): int {
    if m == [] then 0 else if m[0].name == c then m[0].value else ValueOf(m[1..], c)
  }

  /** `categoryMap[c] = (categoryMap[c] || 0) + v`: an existing key is updated in place, a new one appended. */
  function Add(m: seq<Entry>, c: string, v: int): (r: seq<Entry>)
    ensures Names(r) == Names(m) + {c}
    ensures ValueSum(r) == ValueSum(m) + v
    ensures DistinctNames(m) ==> DistinctNames(r)
    ensures DistinctNames(m) ==> ValueOf(r, c) == ValueOf(m, c) + v
    ensures forall x :: x != c ==> ValueOf(r, x) == ValueOf(m, x)
  {
    if m == [] then [Entry(c, v)]
    else if m[0].name == c then [Entry(c, m[0].value + v)] + m[1..]
    else [m[0]] + Add(m[1..], c, v)
  }

  lemma {:induction false} NameAt(m: seq<Entry>, k: nat)
    requires k < |m|
    ensures m[k].name in Names(m)
  {
    if k > 0 {
      NameAt(m[1..], k - 1);
    }
  }

  lemma {:induction false} IndexOfName(m: seq<Entry>, c: string) returns (k: nat)
    requires c in Names(m)
    ensures k < |m| && m[k].name == c
  {
    if m[0].name == c {
      k := 0;
    } else {
      var j := IndexOfName(m[1..], c);
      k := j + 1;
    }
  }

  /** In a dictionary with distinct keys, the value read for an entry's key is that entry's value. */
  lemma {:induction false} ValueAt(m: seq<Entry>, k: nat)
    requires DistinctNames(m) && k < |m|
    ensures ValueOf(m, m[k].name) == m[k].value
  {
    if k > 0 {
      NameAt(m[1..], k - 1);
      ValueAt(m[1..], k - 1);
    }
  }

  /** The sum, per category, of the amounts of `es`. */
  function CategorySpend(es: seq<Expense>, c: string): int {
    if es == [] then 0 else (if CategoryOf(es[0]) == c then es[0].amount else 0) + CategorySpend(es[1..], c)
  }

  predicate HasCategory(es: seq<Expense>, c: string) {
    exists i :: 0 <= i < |es| && CategoryOf(es[i]) == c
  }

  /** The dictionary after `forEach` has visited `es`, starting from `m`. */
  function Tally(m: seq<Entry>, es: seq<Expense>): seq<Entry>
    decreases |es|
  {
    if es == [] then m else Tally(Add(m, CategoryOf(es[0]), es[0].amount), es[1..])
  }

  /** The facts about any tally: its keys, its total, and each key's value. */
  lemma {:induction false} TallyFacts(m: seq<Entry>, es: seq<Expense>)
    requires DistinctNames(m)
    ensures DistinctNames(Tally(m, es))
    ensures ValueSum(Tally(m, es)) == ValueSum(m) + TotalSpend(es)
    ensures forall c :: c in Names(Tally(m, es)) <==> c in Names(m) || HasCategory(es, c)
    ensures forall c :: ValueOf(Tally(m, es), c) == ValueOf(m, c) + CategorySpend(es, c)
    decreases |es|
  {
    if es != [] {
      var m' := Add(m, CategoryOf(es[0]), es[0].amount);
      TallyFacts(m', es[1..]);
      forall c | true
        ensures HasCategory(es, c) <==> CategoryOf(es[0]) == c || HasCategory(es[1..], c)
      {
        if HasCategory(es, c) && CategoryOf(es[0]) != c {
          var i :| 0 <= i < |es| && CategoryOf(es[i]) == c;
          assert CategoryOf(es[1..][i - 1]) == c;
        }
        if HasCategory(es[1..], c) {
          var i :| 0 <= i < |es[1..]| && CategoryOf(es[1..][i]) == c;
          assert CategoryOf(es[i + 1]) == c;
        }
      }
    }
  }

  /** The category dictionary of lines 107-111, built by the same loop. */
  method CategoryMap(es: seq<Expense>) returns (m: seq<Entry>)
    ensures m == Tally([], es)
  {
    m := [];
    var i := 0;
    while i < |es|
      invariant 0 <= i <= |es|
      invariant Tally(m, es[i..]) == Tally([], es)
    {
      assert es[i..][1..] == es[i + 1..];
      m := Add(m, CategoryOf(es[i]), es[i].amount);
      i := i + 1;
    }
    assert es[i..] == [];
  }

  /**
   * One key per distinct category (an empty one counted as 'Other'), each
   * holding the sum of that category's amounts, all summing to the total.
   */
  lemma CategoryMapMeaning(es: seq<Expense>)
    ensures DistinctNames(Tally([], es))
    ensures ValueSum(Tally([], es)) == TotalSpend(es)
    ensures forall c :: c in Names(Tally([], es)) <==> HasCategory(es, c)
    ensures forall c :: ValueOf(Tally([], es), c) == CategorySpend(es, c)
  {
    TallyFacts([], es);
  }

  // ---------------------------------------------------------------- sorting

  predicate SortedDesc<T>(s: seq<T>, key: T -> int) {
    forall i, j :: 0 <= i < j < |s| ==> key(s[i]) >= key(s[j])
  }

  /** Puts `x` before the first element with a key not above its own. */
  function InsertDesc<T>(x: T, s: seq<T>, key: T -> int): (r: seq<T>)
    ensures |r| == |s| + 1
    ensures multiset(r) == multiset(s) + multiset{x}
  {
    if s == [] || key(x) >= key(s[0]) then [x] + s
    else
      assert s == [s[0]] + s[1..];
      [s[0]] + InsertDesc(x, s[1..], key)
  }

  lemma {:induction false} InsertDescSorted<T>(x: T, s: seq<T>, key: T -> int)
    requires SortedDesc(s, key)
    ensures SortedDesc(InsertDesc(x, s, key), key)
  {
    if s != [] && key(x) < key(s[0]) {
      InsertDescSorted(x, s[1..], key);
      var t := InsertDesc(x, s[1..], key);
      forall y | y in t ensures key(s[0]) >= key(y) {
        assert y in multiset(t);
        if y != x {
          assert y in multiset(s[1..]);
          var j :| 0 <= j < |s[1..]| && s[1..][j] == y;
          assert s[j + 1] == y;
        }
      }
    }
  }

  /** The array sort with a comparator `(a, b) => key(b) - key(a)`: largest key first. */
  function SortDesc<T>(s: seq<T>, key: T -> int): (r: seq<T>)
    ensures multiset(r) == multiset(s) && |r| == |s|
    ensures SortedDesc(r, key)
  {
    if s == [] then []
    else
      assert s == [s[0]] + s[1..];
      InsertDescSorted(s[0], SortDesc(s[1..], key), key);
      InsertDesc(s[0], SortDesc(s[1..], key), key)
  }

  // ---------------------------------------------------------------- chart, top category, recent

  /** `CATEGORY_COLORS`. */
  function ColorOf(name: string): (color: string)
    ensures name !in {"Food", "Transport", "Entertainment", "Shopping", "Bills", "Health", "Education"}
            ==> color == "#6b7280"
  {
    if name == "Food" then "#fb923c"
    else if name == "Transport" then "#3b82f6"
    else if name == "Entertainment" then "#a855f7"
    else if name == "Shopping" then "#ec4899"
    else if name == "Bills" then "#f59e0b"
    else if name == "Health" then "#10b981"
    else if name == "Education" then "#06b6d4"
    else "#6b7280"
  }

  datatype Slice = Slice(name: string, value: int, color: string)

  function EntryValue(e: Entry): int { e.value }

  function Slices(m: seq<Entry>): (r: seq<Slice>)
    ensures |r| == |m|
    ensures forall i :: 0 <= i < |m| ==> r[i] == Slice(m[i].name, m[i].value, ColorOf(m[i].name))
  {
    if m == [] then [] else [Slice(m[0].name, m[0].value, ColorOf(m[0].name))] + Slices(m[1..])
  }

  /** Lines 113-119: the dictionary's entries, largest value first, each with its colour. */
  function ChartData(es: seq<Expense>): seq<Slice> {
    Slices(SortDesc(Tally([], es), EntryValue))
  }

  const NoCategory: string := "—"

  /** `chartData[0]?.name || '—'`. */
  function TopCategory(es: seq<Expense>): string {
    var chart := ChartData(es);
    if chart == [] || chart[0].name == "" then NoCategory else chart[0].name
  }

  /** The chart has one slice per key of the dictionary, in non-increasing order of value. */
  lemma ChartOrdered(es: seq<Expense>)
    ensures |ChartData(es)| == |Tally([], es)|
    ensures forall i, j :: 0 <= i < j < |ChartData(es)| ==> ChartData(es)[i].value >= ChartData(es)[j].value
  {
    var sorted := SortDesc(Tally([], es), EntryValue);
    forall i, j | 0 <= i < j < |sorted| ensures sorted[i].value >= sorted[j].value {
      assert EntryValue(sorted[i]) >= EntryValue(sorted[j]);
    }
  }

  lemma {:induction false} PositionOf<T>(s: seq<T>, x: T) returns (k: nat)
    requires x in multiset(s)
    ensures k < |s| && s[k] == x
  {
    assert x in s;
    k :| 0 <= k < |s| && s[k] == x;
  }

  /** Without expenses the top category is '—'. */
  lemma NoExpensesNoTopCategory()
    ensures TopCategory([]) == NoCategory
  {
  }

  /** The first entry of the sorted dictionary, the one the top category card reads. */
  lemma TopEntry(es: seq<Expense>) returns (k: nat)
    requires es != []
    ensures k < |Tally([], es)|
    ensures Tally([], es)[k] == SortDesc(Tally([], es), EntryValue)[0]
    ensures TopCategory(es) == Tally([], es)[k].name
    ensures HasCategory(es, TopCategory(es))
  {
    var m := Tally([], es);
    CategoryMapMeaning(es);
    assert HasCategory(es, CategoryOf(es[0])) by { assert CategoryOf(es[0]) == CategoryOf(es[0]); }
    assert m != [];
    var sorted := SortDesc(m, EntryValue);
    k := PositionOf(m, sorted[0]);
    NameAt(m, k);
  }

  /** With expenses, no category's spend exceeds the top category's. */
  lemma TopCategoryIsLargest(es: seq<Expense>, c: string)
    requires HasCategory(es, c)
    ensures CategorySpend(es, c) <= CategorySpend(es, TopCategory(es))
  {
    var m := Tally([], es);
    var sorted := SortDesc(m, EntryValue);
    CategoryMapMeaning(es);
    var k := TopEntry(es);
    var ic := IndexOfName(m, c);
    var jc := PositionOf(sorted, m[ic]);
    assert EntryValue(sorted[0]) >= EntryValue(sorted[jc]);
    ValueAt(m, k);
    ValueAt(m, ic);
  }

  /** The comparison key of `new Date(d)`; for real dates it orders like the calendar. */
  function DayKey(d: Date): int {
    (d.year * 13 + d.month) * 32 + d.day
  }

  lemma DayKeyOrders(a: Date, b: Date)
    requires ValidDate(a) && ValidDate(b)
    ensures Before(a, b) <==> DayKey(a) < DayKey(b)
    ensures a == b <==> DayKey(a) == DayKey(b)
  {
  }

  function ExpenseDayKey(e: Expense): int { DayKey(e.date) }

  const RecentCount: nat := 6

  /** Lines 123-125: a sorted copy, newest date first, cut to six. */
  function RecentExpenses(es: seq<Expense>): seq<Expense> {
    var sorted := SortDesc(es, ExpenseDayKey);
    sorted[..if |sorted| < RecentCount then |sorted| else RecentCount]
  }

  /** In a list sorted by descending key, nothing after position `k` has a larger key than anything before it. */
  lemma TailNotAbove<T>(s: seq<T>, key: T -> int, k: nat)
    requires SortedDesc(s, key) && k <= |s|
    ensures forall x, i :: x in s[k..] && 0 <= i < k ==> key(x) <= key(s[i])
  {
    forall x, i | x in s[k..] && 0 <= i < k ensures key(x) <= key(s[i]) {
      var j :| 0 <= j < |s[k..]| && s[k..][j] == x;
      assert s[k + j] == x;
    }
  }

  /** The recent list has min(6, n) elements, all taken from the expenses, newest first. */
  lemma RecentExpensesShape(es: seq<Expense>)
    ensures |RecentExpenses(es)| == if |es| < RecentCount then |es| else RecentCount
    ensures multiset(RecentExpenses(es)) <= multiset(es)
    ensures SortedDesc(RecentExpenses(es), ExpenseDayKey)
  {
    var sorted := SortDesc(es, ExpenseDayKey);
    var k := if |sorted| < RecentCount then |sorted| else RecentCount;
    assert sorted == sorted[..k] + sorted[k..];
    assert multiset(sorted) == multiset(sorted[..k]) + multiset(sorted[k..]);
  }

  /** No expense left out of the recent list is newer than one shown. */
  lemma RecentExpensesNewest(es: seq<Expense>, x: Expense, i: nat)
    requires x in multiset(es) - multiset(RecentExpenses(es)) && i < |RecentExpenses(es)|
    ensures ExpenseDayKey(x) <= ExpenseDayKey(RecentExpenses(es)[i])
  {
    var sorted := SortDesc(es, ExpenseDayKey);
    var k := if |sorted| < RecentCount then |sorted| else RecentCount;
    var shown := sorted[..k];
    assert sorted == shown + sorted[k..];
    assert multiset(es) == multiset(shown) + multiset(sorted[k..]);
    assert x in multiset(sorted[k..]);
    TailNotAbove(sorted, ExpenseDayKey, k);
  }
}
