/**
  The read side of ExpenseService: the listing filter and the analytics
  report, as functions of the stored rows. "Today" is a parameter.
 */
module ExpenseQueries {
  import opened Dates
  import opened ExpenseModel
  import Money

  // ---------------------------------------------------------------------------
  // Selections: the two derived queries of the repository
  // ---------------------------------------------------------------------------

  /** The rows of s that keep accepts, in store order. */
  function Filter(s: seq<ExpenseRow>, keep: ExpenseRow -> bool): (r: seq<ExpenseRow>)
    ensures forall e :: multiset(r)[e] == if keep(e) then multiset(s)[e] else 0
    ensures forall e :: e in r <==> e in s && keep(e)
  {
    if s == [] then []
    else
      assert s == [s[0]] + s[1..];
      var rest := Filter(s[1..], keep);
      if keep(s[0]) then [s[0]] + rest else rest
  }

  /** startDate <= d <= endDate, both ends included (SQL BETWEEN). */
  predicate InRange(d: LocalDate, startDate: LocalDate, endDate: LocalDate) {
    NotAfter(startDate, d) && NotAfter(d, endDate)
  }

  function DateBetween(startDate: LocalDate, endDate: LocalDate): ExpenseRow -> bool {
    (e: ExpenseRow) => InRange(e.date, startDate, endDate)
  }

  function CategoryIs(category: string): ExpenseRow -> bool {
    (e: ExpenseRow) => e.category == category
  }

  function CategoryAndDateBetween(category: string, startDate: LocalDate, endDate: LocalDate): ExpenseRow -> bool {
    (e: ExpenseRow) => e.category == category && InRange(e.date, startDate, endDate)
  }

  /** ExpenseRepository.findByDateBetween: the rows dated within [startDate, endDate], in store order. */
  function FindByDateBetween(store: seq<ExpenseRow>, startDate: LocalDate, endDate: LocalDate): (r: seq<ExpenseRow>)
    ensures forall e :: multiset(r)[e] == if InRange(e.date, startDate, endDate) then multiset(store)[e] else 0
    ensures forall e :: e in r <==> e in store && InRange(e.date, startDate, endDate)
  {
    Filter(store, DateBetween(startDate, endDate))
  }

  /** ExpenseRepository.findByCategoryAndDateBetween: the rows of that exact category dated within the range. */
  function FindByCategoryAndDateBetween(store: seq<ExpenseRow>, category: string, startDate: LocalDate, endDate: LocalDate)
    : (r: seq<ExpenseRow>)
    ensures forall e :: multiset(r)[e] ==
                        if e.category == category && InRange(e.date, startDate, endDate) then multiset(store)[e] else 0
    ensures forall e :: e in r <==> e in store && e.category == category && InRange(e.date, startDate, endDate)
  {
    Filter(store, CategoryAndDateBetween(category, startDate, endDate))
  }

  // ---------------------------------------------------------------------------
  // Listing
  // ---------------------------------------------------------------------------

  /**
    getAllExpenses: the first of three rules that applies decides the selection.
    Both bounds and a non-blank category: the rows of that exact category dated
    within the inclusive range. Both bounds otherwise: the rows dated within the
    range, whatever their category. A bound missing: the whole store, so a lone
    bound and the category have no effect.
   */
  function GetAllExpenses(store: seq<ExpenseRow>, startDate: Option<LocalDate>, endDate: Option<LocalDate>,
                          category: Option<string>): (r: seq<ExpenseRow>)
    ensures startDate.Some? && endDate.Some? && category.Some? && !IsBlank(category.value) ==>
      forall e :: multiset(r)[e] ==
        if e.category == category.value && InRange(e.date, startDate.value, endDate.value) then multiset(store)[e] else 0
    ensures startDate.Some? && endDate.Some? && (category.None? || IsBlank(category.value)) ==>
      forall e :: multiset(r)[e] == if InRange(e.date, startDate.value, endDate.value) then multiset(store)[e] else 0
    ensures startDate.None? || endDate.None? ==> r == store
  {
    if startDate.Some? && endDate.Some? && category.Some? && !IsBlank(category.value) then
      FindByCategoryAndDateBetween(store, category.value, startDate.value, endDate.value)
    else if startDate.Some? && endDate.Some? then
      FindByDateBetween(store, startDate.value, endDate.value)
    else
      store
  }

  /** A reversed range selects nothing. */
  lemma ReversedRangeSelectsNothing(store: seq<ExpenseRow>, startDate: LocalDate, endDate: LocalDate)
    requires !NotAfter(startDate, endDate)
    ensures FindByDateBetween(store, startDate, endDate) == []
  {
  }

  // ---------------------------------------------------------------------------
  // Sums
  // ---------------------------------------------------------------------------

  /**
    The amounts of s added up, starting from zero. With every amount above
    zero the sum is never negative, and it is positive unless s is empty.
   */
  function Total(s: seq<ExpenseRow>): (t: Cents)
    ensures (forall i :: 0 <= i < |s| ==> ValidAmount(s[i].amount)) ==> t >= 0 && (s != [] ==> t > 0)
  {
    if s == [] then 0 else s[0].amount + Total(s[1..])
  }

  /** Reference sum: the amounts of the rows of s that keep accepts, read straight off s. */
  function AmountWhere(s: seq<ExpenseRow>, keep: ExpenseRow -> bool): Cents {
    if s == [] then 0 else (if keep(s[0]) then s[0].amount else 0) + AmountWhere(s[1..], keep)
  }

  lemma {:induction false} TotalAppend(a: seq<ExpenseRow>, b: seq<ExpenseRow>)
    ensures Total(a + b) == Total(a) + Total(b)
  {
    if a != [] {
      assert (a + b)[0] == a[0];
      assert (a + b)[1..] == a[1..] + b;
      TotalAppend(a[1..], b);
    } else {
      assert a + b == b;
    }
  }

  /** Taking one row out of a sequence takes its amount out of the total. */
  lemma TotalRemove(b: seq<ExpenseRow>, i: int)
    requires 0 <= i < |b|
    ensures Total(b) == b[i].amount + Total(b[..i] + b[i + 1..])
  {
    assert b[..i] + b[i..] == b;
    TotalAppend(b[..i], b[i..]);
    assert b[i..][1..] == b[i + 1..];
    TotalAppend(b[..i], b[i + 1..]);
  }

  /** The total depends only on which rows are summed, not on their order. */
  lemma {:induction false} TotalPermutation(a: seq<ExpenseRow>, b: seq<ExpenseRow>)
    requires multiset(a) == multiset(b)
    ensures Total(a) == Total(b)
    decreases |a|
  {
    if a != [] {
      assert a[0] in multiset(b);
      var i :| 0 <= i < |b| && b[i] == a[0];
      var rest := b[..i] + b[i + 1..];
      RemoveFromBoth(a, b, i);
      TotalPermutation(a[1..], rest);
      TotalRemove(b, i);
    }
  }

  lemma RemoveFromBoth(a: seq<ExpenseRow>, b: seq<ExpenseRow>, i: int)
    requires multiset(a) == multiset(b)
    requires a != [] && 0 <= i < |b| && b[i] == a[0]
    ensures multiset(a[1..]) == multiset(b[..i] + b[i + 1..])
  {
    assert b == b[..i] + [b[i]] + b[i + 1..];
    assert a == [a[0]] + a[1..];
    assert multiset(b) == multiset(b[..i]) + multiset{b[i]} + multiset(b[i + 1..]);
    assert multiset(b[..i] + b[i + 1..]) == multiset(b[..i]) + multiset(b[i + 1..]);
    assert multiset(a[1..]) == multiset(a) - multiset{a[0]};
  }

  /** Summing a selection is summing the selected amounts of the whole sequence. */
  lemma {:induction false} TotalOfFilter(s: seq<ExpenseRow>, keep: ExpenseRow -> bool)
    ensures Total(Filter(s, keep)) == AmountWhere(s, keep)
  {
    if s != [] {
      TotalOfFilter(s[1..], keep);
      if keep(s[0]) {
        assert ([s[0]] + Filter(s[1..], keep))[1..] == Filter(s[1..], keep);
      }
    }
  }

  /** Selecting with q after selecting with p is selecting with both. */
  lemma {:induction false} FilterFilter(s: seq<ExpenseRow>, p: ExpenseRow -> bool, q: ExpenseRow -> bool,
                                        pq: ExpenseRow -> bool)
    requires forall e :: pq(e) == (p(e) && q(e))
    ensures Filter(Filter(s, p), q) == Filter(s, pq)
  {
    if s != [] {
      FilterFilter(s[1..], p, q, pq);
      if p(s[0]) {
        var rest := Filter(s[1..], p);
        assert ([s[0]] + rest)[1..] == rest;
      }
    }
  }

  // ---------------------------------------------------------------------------
  // Grouping by category
  // ---------------------------------------------------------------------------

  /** The categories that occur in s. */
  function Categories(s: seq<ExpenseRow>): set<string> {
    if s == [] then {} else {s[0].category} + Categories(s[1..])
  }

  lemma {:induction false} CategoryPresent(s: seq<ExpenseRow>, c: string)
    ensures c in Categories(s) <==> exists e :: e in s && e.category == c
  {
    if s != [] {
      CategoryPresent(s[1..], c);
      assert s == [s[0]] + s[1..];
    }
  }

  lemma {:induction false} MissingCategory(s: seq<ExpenseRow>, c: string)
    requires c !in Categories(s)
    ensures Filter(s, CategoryIs(c)) == []
  {
    if s != [] {
      MissingCategory(s[1..], c);
    }
  }

  /** groupingBy(category, reducing(ZERO, amount, add)) over s: one key per category occurring in s. */
  function CategoryTotals(s: seq<ExpenseRow>): (m: map<string, Cents>)
    ensures m.Keys == Categories(s)
  {
    if s == [] then map[]
    else
      var rest := CategoryTotals(s[1..]);
      var c := s[0].category;
      rest[c := (if c in rest then rest[c] else 0) + s[0].amount]
  }

  /** The key of a category occurring in s holds the total of that category's rows. */
  lemma {:induction false} CategoryTotalAt(s: seq<ExpenseRow>, c: string)
    ensures c in CategoryTotals(s) ==> CategoryTotals(s)[c] == Total(Filter(s, CategoryIs(c)))
  {
    if s != [] {
      CategoryTotalAt(s[1..], c);
      var rest := CategoryTotals(s[1..]);
      var tail := Filter(s[1..], CategoryIs(c));
      if s[0].category == c {
        if c !in rest {
          MissingCategory(s[1..], c);
        }
        assert Filter(s, CategoryIs(c)) == [s[0]] + tail;
        assert ([s[0]] + tail)[1..] == tail;
      } else {
        assert Filter(s, CategoryIs(c)) == tail;
      }
    }
  }

  ghost function PickKey(m: map<string, Cents>): (k: string)
    requires m != map[]
    ensures k in m
  {
    assert m.Keys != {};
    var k :| k in m; k
  }

  /** The values of m added up. */
  ghost function MapSum(m: map<string, Cents>): int
    decreases |m|
  {
    if m == map[] then 0
    else
      var k := PickKey(m);
      assert |m - {k}| < |m| by { assert (m - {k}).Keys == m.Keys - {k}; }
      m[k] + MapSum(m - {k})
  }

  /** MapSum may take the keys in any order. */
  lemma {:induction false} MapSumRemove(m: map<string, Cents>, k: string)
    requires k in m
    ensures MapSum(m) == m[k] + MapSum(m - {k})
    decreases |m|
  {
    var j := PickKey(m);
    if j != k {
      assert (m - {j}).Keys == m.Keys - {j};
      assert (m - {k}).Keys == m.Keys - {k};
      MapSumRemove(m - {j}, k);
      MapSumRemove(m - {k}, j);
      assert m - {j} - {k} == m - {k} - {j};
    }
  }

  /** Replacing or adding one value changes the sum by the difference. */
  lemma MapSumUpdate(m: map<string, Cents>, k: string, v: Cents)
    ensures MapSum(m[k := v]) == MapSum(m) - (if k in m then m[k] else 0) + v
  {
    var m' := m[k := v];
    MapSumRemove(m', k);
    assert m' - {k} == m - {k};
    if k in m {
      MapSumRemove(m, k);
    } else {
      assert (m - {k}).Keys == m.Keys;
      assert m - {k} == m;
    }
  }

  /** The category totals add up to the total. */
  lemma {:induction false} CategoryTotalsSum(s: seq<ExpenseRow>)
    ensures MapSum(CategoryTotals(s)) == Total(s)
  {
    if s != [] {
      var rest := CategoryTotals(s[1..]);
      var c := s[0].category;
      CategoryTotalsSum(s[1..]);
      MapSumUpdate(rest, c, (if c in rest then rest[c] else 0) + s[0].amount);
    }
  }

  /** With positive amounts no category total is zero. */
  lemma CategoryTotalsPositive(s: seq<ExpenseRow>, c: string)
    requires forall i :: 0 <= i < |s| ==> ValidAmount(s[i].amount)
    requires c in CategoryTotals(s)
    ensures CategoryTotals(s)[c] > 0
  {
    CategoryTotalAt(s, c);
    CategoryPresent(s, c);
    var r := Filter(s, CategoryIs(c));
    var e :| e in s && e.category == c;
    assert e in r;
    forall i | 0 <= i < |r| ensures ValidAmount(r[i].amount) {
      assert r[i] in r;
    }
  }

  // ---------------------------------------------------------------------------
  // The analytics report
  // ---------------------------------------------------------------------------

  datatype ExpenseAnalytics = ExpenseAnalytics(
    startDate: LocalDate,
    endDate: LocalDate,
    totalAmount: Cents,
    categoryTotals: map<string, Cents>,
    averageDailySpend: Cents)

  /** DAYS.between(startDate, endDate) + 1, raised to 1 when smaller. */
  function DayCount(startDate: LocalDate, endDate: LocalDate): (days: int)
    ensures days >= 1
    ensures NotAfter(startDate, endDate) ==> days == DaysBetween(startDate, endDate) + 1
    ensures !NotAfter(startDate, endDate) ==> days == 1
  {
    var days := DaysBetween(startDate, endDate) + 1;
    if days < 1 then 1 else days
  }

  /** The category totals of a range selection, read straight off the store. */
  lemma RangeCategoryTotals(store: seq<ExpenseRow>, startDate: LocalDate, endDate: LocalDate)
    ensures var m := CategoryTotals(FindByDateBetween(store, startDate, endDate));
      && (forall c :: c in m <==> exists e :: e in store && e.category == c && InRange(e.date, startDate, endDate))
      && (forall c :: c in m ==> m[c] == AmountWhere(store, CategoryAndDateBetween(c, startDate, endDate)))
      && MapSum(m) == Total(FindByDateBetween(store, startDate, endDate))
  {
    var expenses := FindByDateBetween(store, startDate, endDate);
    var m := CategoryTotals(expenses);
    forall c
      ensures c in m <==> exists e :: e in store && e.category == c && InRange(e.date, startDate, endDate)
      ensures c in m ==> m[c] == AmountWhere(store, CategoryAndDateBetween(c, startDate, endDate))
    {
      CategoryTotalAt(expenses, c);
      CategoryPresent(expenses, c);
      FilterFilter(store, DateBetween(startDate, endDate), CategoryIs(c), CategoryAndDateBetween(c, startDate, endDate));
      TotalOfFilter(store, CategoryAndDateBetween(c, startDate, endDate));
    }
    CategoryTotalsSum(expenses);
  }

  /**
    getAnalytics, with LocalDate.now() passed in as today. Each missing bound
    is defaulted on its own (start: the first of today's month, end: today)
    and the report carries the bounds used. The total is the sum over exactly
    the rows dated within them; there is one category key per category
    occurring there, holding that category's sum, and the keys' sums make the
    total. The average is the total over the day count, rounded half up to
    the cent.
   */
  function GetAnalytics(store: seq<ExpenseRow>, startDate: Option<LocalDate>, endDate: Option<LocalDate>,
                        today: LocalDate): (a: ExpenseAnalytics)
    ensures startDate.Some? ==> a.startDate == startDate.value
    ensures startDate.None? ==> a.startDate == Date(today.year, today.month, 1)
    ensures endDate.Some? ==> a.endDate == endDate.value
    ensures endDate.None? ==> a.endDate == today
    ensures a.totalAmount == AmountWhere(store, DateBetween(a.startDate, a.endDate))
    ensures forall c :: c in a.categoryTotals <==>
      exists e :: e in store && e.category == c && InRange(e.date, a.startDate, a.endDate)
    ensures forall c :: c in a.categoryTotals ==>
      a.categoryTotals[c] == AmountWhere(store, CategoryAndDateBetween(c, a.startDate, a.endDate))
    ensures MapSum(a.categoryTotals) == a.totalAmount
    ensures var days := DayCount(a.startDate, a.endDate);
      && (a.totalAmount >= 0 ==>
            2 * days * a.averageDailySpend - days <= 2 * a.totalAmount < 2 * days * a.averageDailySpend + days)
      && (a.totalAmount < 0 ==>
            2 * days * a.averageDailySpend - days < 2 * a.totalAmount <= 2 * days * a.averageDailySpend + days)
  {
    var from := if startDate.None? then FirstOfMonth(today) else startDate.value;
    var to := if endDate.None? then today else endDate.value;
    var expenses := FindByDateBetween(store, from, to);
    TotalOfFilter(store, DateBetween(from, to));
    RangeCategoryTotals(store, from, to);
    var total := Total(expenses);
    var days := DayCount(from, to);
    var average := if days == 0 then 0 else Money.DivideHalfUp(total, days);
    ExpenseAnalytics(from, to, total, CategoryTotals(expenses), average)
  }

  /** No row within the bounds: a zero total, no categories and a zero average. */
  lemma AnalyticsEmpty(store: seq<ExpenseRow>, startDate: Option<LocalDate>, endDate: Option<LocalDate>,
                       today: LocalDate)
    requires var a := GetAnalytics(store, startDate, endDate, today);
      forall e :: e in store ==> !InRange(e.date, a.startDate, a.endDate)
    ensures var a := GetAnalytics(store, startDate, endDate, today);
      a.totalAmount == 0 && a.categoryTotals == map[] && a.averageDailySpend == 0
  {
    var a := GetAnalytics(store, startDate, endDate, today);
  }

  /** With positive amounts in the store, the report holds no zero category total. */
  lemma AnalyticsNoZeroCategory(store: seq<ExpenseRow>, startDate: Option<LocalDate>, endDate: Option<LocalDate>,
                                today: LocalDate)
    requires forall i :: 0 <= i < |store| ==> ValidAmount(store[i].amount)
    ensures var a := GetAnalytics(store, startDate, endDate, today);
      forall c :: c in a.categoryTotals ==> a.categoryTotals[c] > 0
  {
    var a := GetAnalytics(store, startDate, endDate, today);
    var expenses := FindByDateBetween(store, a.startDate, a.endDate);
    forall i | 0 <= i < |expenses| ensures ValidAmount(expenses[i].amount) {
      assert expenses[i] in expenses;
    }
    forall c | c in a.categoryTotals ensures a.categoryTotals[c] > 0 {
      CategoryTotalsPositive(expenses, c);
    }
  }
}
