/**
 * The accounting views (`accounting/views.py`): the running balance of an
 * account listing, the totals of an entry listing, the per-account balance, the
 * per-analytic balance and budget, the selection of the lines belonging to a
 * bank statement or to the next reconciliation, and the daily cash-flow series.
 * Each view works on the list of lines its filter form leaves; that list is the
 * parameter `ts`. Grouped queries are modelled as one row per distinct key in
 * order of first appearance; the views' `order_by` only changes the display
 * order, and every total below is independent of it.
 */
module Reports {

  import opened Common
  import opened Calendar
  import opened Ledger
  import opened DailySeries

  // ---------------------------------------------------------------------------
  // AccountView: running balance

  /**
   * The loop of `AccountView`: each line gets the running balance up to and
   * including it, and the totals are the column sums.
   */
  method RunningBalance(ts: seq<Transaction>) returns (soldes: seq<int>, revenue: int, expense: int, solde: int)
    ensures |soldes| == |ts|
    ensures forall i :: 0 <= i < |ts| ==> soldes[i] == SumOf(ts[..i + 1], Balance)
    ensures revenue == SumOf(ts, Revenue) && expense == SumOf(ts, Expense)
    ensures solde == SumOf(ts, Balance) && solde == revenue - expense
  {
    soldes, revenue, expense, solde := [], 0, 0, 0;
    var i := 0;
    while i < |ts|
      invariant i <= |ts| && |soldes| == i
      invariant forall k :: 0 <= k < i ==> soldes[k] == SumOf(ts[..k + 1], Balance)
      invariant solde == SumOf(ts[..i], Balance)
      invariant revenue == SumOf(ts[..i], Revenue) && expense == SumOf(ts[..i], Expense)
    {
      assert ts[..i + 1][..i] == ts[..i];
      solde := solde + ts[i].revenue - ts[i].expense;
      soldes := soldes + [solde];
      revenue := revenue + ts[i].revenue;
      expense := expense + ts[i].expense;
      i := i + 1;
    }
    assert ts[..i] == ts;
    BalanceSum(ts);
  }

  // ---------------------------------------------------------------------------
  // EntryListView: totals

  /**
   * One row of the entry listing. Its revenue, expense and balance columns come
   * from the listing's filter annotation (`EntryFilter`, not part of this model).
   */
  datatype EntryRow = EntryRow(revenue: int, expense: int, balance: int)

  function RowRevenue(e: EntryRow): int { e.revenue }
  function RowExpense(e: EntryRow): int { e.expense }
  function RowBalance(e: EntryRow): int { e.balance }

  /** The loop of `EntryListView`: the three column totals. */
  method EntryTotals(rows: seq<EntryRow>) returns (revenue: int, expense: int, balance: int)
    ensures revenue == SumOf(rows, RowRevenue)
    ensures expense == SumOf(rows, RowExpense)
    ensures balance == SumOf(rows, RowBalance)
  {
    revenue, expense, balance := 0, 0, 0;
    var i := 0;
    while i < |rows|
      invariant i <= |rows|
      invariant revenue == SumOf(rows[..i], RowRevenue)
      invariant expense == SumOf(rows[..i], RowExpense)
      invariant balance == SumOf(rows[..i], RowBalance)
    {
      assert rows[..i + 1][..i] == rows[..i];
      revenue := revenue + rows[i].revenue;
      expense := expense + rows[i].expense;
      balance := balance + rows[i].balance;
      i := i + 1;
    }
    assert rows[..i] == rows;
  }

  /** When every row's balance is its revenue minus its expense, so are the totals. */
  lemma {:induction false} EntryTotalsBalance(rows: seq<EntryRow>)
    requires forall i :: 0 <= i < |rows| ==> rows[i].balance == rows[i].revenue - rows[i].expense
    ensures SumOf(rows, RowBalance) == SumOf(rows, RowRevenue) - SumOf(rows, RowExpense)
  {
    if rows != [] {
      EntryTotalsBalance(rows[..|rows| - 1]);
    }
  }

  // ---------------------------------------------------------------------------
  // BalanceView: per-account balance

  /** One row of the balance: an account with its revenue and expense sums and their difference. */
  datatype AccountRow = AccountRow(account: string, revenues: int, expenses: int, solde: int)

  function AccountRevenues(r: AccountRow): int { r.revenues }
  function AccountExpenses(r: AccountRow): int { r.expenses }
  function AccountSolde(r: AccountRow): int { r.solde }

  /** The aggregate row of one account. */
  function AccountRowOf(ts: seq<Transaction>, account: string): (r: AccountRow)
    ensures r.account == account && r.solde == r.revenues - r.expenses
    ensures r.solde == GroupSum(ts, AccountOf, account, Balance)
  {
    GroupSumBalance(ts, AccountOf, account);
    var revenues := GroupSum(ts, AccountOf, account, Revenue);
    var expenses := GroupSum(ts, AccountOf, account, Expense);
    AccountRow(account, revenues, expenses, revenues - expenses)
  }

  /** `values('account__...').annotate(revenues=..., expenses=...)` and the solde loop. */
  function BalanceRows(ts: seq<Transaction>): (r: seq<AccountRow>)
    ensures |r| == |Keys(ts, AccountOf)|
    ensures forall i :: 0 <= i < |r| ==> r[i] == AccountRowOf(ts, Keys(ts, AccountOf)[i])
  {
    MapSeq(Keys(ts, AccountOf), (a: string) => AccountRowOf(ts, a))
  }

  /** Per group, the balance sum is the revenue sum minus the expense sum. */
  lemma {:induction false} GroupSumBalance<K(!new)>(ts: seq<Transaction>, key: Transaction -> K, k: K)
    ensures GroupSum(ts, key, k, Balance) == GroupSum(ts, key, k, Revenue) - GroupSum(ts, key, k, Expense)
  {
    if ts != [] {
      GroupSumBalance(ts[..|ts| - 1], key, k);
    }
  }

  /** Each account with lines has exactly one row, and no other account has one. */
  lemma BalanceRowsAccounts(ts: seq<Transaction>, account: string)
    ensures var rows := BalanceRows(ts);
      (exists i :: 0 <= i < |rows| && rows[i].account == account) <==> (exists t :: t in ts && t.account == account)
    ensures var rows := BalanceRows(ts);
      forall i, j :: 0 <= i < j < |rows| ==> rows[i].account != rows[j].account
  {
    var keys := Keys(ts, AccountOf);
    KeysDistinct(ts, AccountOf);
    var rows := BalanceRows(ts);
    if exists t :: t in ts && t.account == account {
      var t :| t in ts && t.account == account;
      assert AccountOf(t) == account;
      assert account in keys;
      var i :| 0 <= i < |keys| && keys[i] == account;
      assert rows[i].account == account;
    }
    if exists i :: 0 <= i < |rows| && rows[i].account == account {
      var i :| 0 <= i < |rows| && rows[i].account == account;
      assert keys[i] in keys;
      var t :| t in ts && AccountOf(t) == keys[i];
    }
  }

  /**
   * The balance totals: revenues and expenses are the column sums, which are the
   * sums over all lines, and the overall solde is their difference.
   */
  lemma BalanceTotals(ts: seq<Transaction>)
    ensures var rows := BalanceRows(ts);
      && SumOf(rows, AccountRevenues) == SumOf(ts, Revenue)
      && SumOf(rows, AccountExpenses) == SumOf(ts, Expense)
      && SumOf(rows, AccountSolde) == SumOf(ts, Balance)
      && SumOf(rows, AccountSolde) == SumOf(rows, AccountRevenues) - SumOf(rows, AccountExpenses)
  {
    var rowOf := (a: string) => AccountRowOf(ts, a);
    GroupRowsAddUp(ts, AccountOf, Revenue, rowOf, AccountRevenues);
    GroupRowsAddUp(ts, AccountOf, Expense, rowOf, AccountExpenses);
    GroupRowsAddUp(ts, AccountOf, Balance, rowOf, AccountSolde);
    BalanceSum(ts);
  }

  // ---------------------------------------------------------------------------
  // AnalyticBalanceView and BudgetView: per-analytic sums of class 6/7 lines

  /** `account__number__regex=r'^[67]'` */
  predicate IsResultAccount(t: Transaction) {
    AccountClass(t, {'6', '7'})
  }

  function ResultLines(ts: seq<Transaction>): seq<Transaction> {
    Where(ts, IsResultAccount)
  }

  /** The analytic code, the key of per-analytic groups; lines without one form their own group. */
  function AnalyticOf(t: Transaction): Option<nat> {
    t.analytic
  }

  /** One row of the analytic balance. */
  datatype AnalyticRow = AnalyticRow(analytic: Option<nat>, revenue: int, expense: int, solde: int)

  function AnalyticRevenue(r: AnalyticRow): int { r.revenue }
  function AnalyticExpense(r: AnalyticRow): int { r.expense }
  function AnalyticSolde(r: AnalyticRow): int { r.solde }

  function AnalyticRowOf(rows: seq<Transaction>, a: Option<nat>): (r: AnalyticRow)
    ensures r.analytic == a && r.solde == r.revenue - r.expense
    ensures r.solde == GroupSum(rows, AnalyticOf, a, Balance)
  {
    GroupSumBalance(rows, AnalyticOf, a);
    var revenue := GroupSum(rows, AnalyticOf, a, Revenue);
    var expense := GroupSum(rows, AnalyticOf, a, Expense);
    AnalyticRow(a, revenue, expense, revenue - expense)
  }

  /** The rows of `AnalyticBalanceView`: class 6/7 lines grouped by analytic code. */
  function AnalyticBalanceRows(ts: seq<Transaction>): (r: seq<AnalyticRow>)
    ensures |r| == |Keys(ResultLines(ts), AnalyticOf)|
    ensures forall i :: 0 <= i < |r| ==> r[i] == AnalyticRowOf(ResultLines(ts), Keys(ResultLines(ts), AnalyticOf)[i])
  {
    MapSeq(Keys(ResultLines(ts), AnalyticOf), (a: Option<nat>) => AnalyticRowOf(ResultLines(ts), a))
  }

  /**
   * The analytic balance totals: the column sums are the revenue, expense and
   * balance sums over the class 6/7 lines, and the total solde is their difference.
   */
  lemma AnalyticTotals(ts: seq<Transaction>)
    ensures var rows := AnalyticBalanceRows(ts);
      && SumOf(rows, AnalyticRevenue) == SumOf(ResultLines(ts), Revenue)
      && SumOf(rows, AnalyticExpense) == SumOf(ResultLines(ts), Expense)
      && SumOf(rows, AnalyticSolde) == SumOf(ResultLines(ts), Balance)
      && SumOf(rows, AnalyticSolde) == SumOf(rows, AnalyticRevenue) - SumOf(rows, AnalyticExpense)
  {
    var lines := ResultLines(ts);
    var rowOf := (a: Option<nat>) => AnalyticRowOf(lines, a);
    GroupRowsAddUp(lines, AnalyticOf, Revenue, rowOf, AnalyticRevenue);
    GroupRowsAddUp(lines, AnalyticOf, Expense, rowOf, AnalyticExpense);
    GroupRowsAddUp(lines, AnalyticOf, Balance, rowOf, AnalyticSolde);
    BalanceSum(lines);
  }

  /** Lines on accounts outside classes 6 and 7 change no analytic row. */
  lemma AnalyticIgnoresOtherClasses(ts: seq<Transaction>, t: Transaction)
    requires !IsResultAccount(t)
    ensures AnalyticBalanceRows(ts + [t]) == AnalyticBalanceRows(ts)
  {
    WhereSkip(ts, t, IsResultAccount);
  }

  /** The balance of a line of an entry that is not projected, else 0. */
  function RealBalance(t: Transaction): int {
    if !t.entry.projected then Balance(t) else 0
  }

  /** The balance of a line of a projected entry, else 0. */
  function ProjectedBalance(t: Transaction): int {
    if t.entry.projected then Balance(t) else 0
  }

  /** One row of the budget: realised, projected and total balance of an analytic code. */
  datatype BudgetRow = BudgetRow(analytic: Option<nat>, soldeReal: int, soldeProj: int, soldeTotal: int)

  function BudgetReal(r: BudgetRow): int { r.soldeReal }
  function BudgetProj(r: BudgetRow): int { r.soldeProj }
  function BudgetTotal(r: BudgetRow): int { r.soldeTotal }

  function BudgetRowOf(rows: seq<Transaction>, a: Option<nat>): (r: BudgetRow)
    ensures r.analytic == a && r.soldeTotal == r.soldeReal + r.soldeProj
    ensures r.soldeTotal == GroupSum(rows, AnalyticOf, a, Balance)
  {
    GroupSumSplit(rows, a);
    var realised := GroupSum(rows, AnalyticOf, a, RealBalance);
    var proj := GroupSum(rows, AnalyticOf, a, ProjectedBalance);
    BudgetRow(a, realised, proj, realised + proj)
  }

  lemma {:induction false} GroupSumSplit(rows: seq<Transaction>, a: Option<nat>)
    ensures GroupSum(rows, AnalyticOf, a, Balance)
      == GroupSum(rows, AnalyticOf, a, RealBalance) + GroupSum(rows, AnalyticOf, a, ProjectedBalance)
  {
    if rows != [] {
      GroupSumSplit(rows[..|rows| - 1], a);
    }
  }

  /** The rows of `BudgetView`: class 6/7 lines grouped by analytic code, split on `entry.projected`. */
  function BudgetRows(ts: seq<Transaction>): (r: seq<BudgetRow>)
    ensures |r| == |Keys(ResultLines(ts), AnalyticOf)|
    ensures forall i :: 0 <= i < |r| ==> r[i] == BudgetRowOf(ResultLines(ts), Keys(ResultLines(ts), AnalyticOf)[i])
  {
    MapSeq(Keys(ResultLines(ts), AnalyticOf), (a: Option<nat>) => BudgetRowOf(ResultLines(ts), a))
  }

  function IsProjected(t: Transaction): bool {
    t.entry.projected
  }

  function IsReal(t: Transaction): bool {
    !t.entry.projected
  }

  /**
   * The budget totals: the realised total is the balance of the class 6/7 lines of
   * entries that are not projected, the projected total that of the projected
   * ones, and the overall total is both together, the balance of all class 6/7 lines.
   */
  lemma BudgetTotals(ts: seq<Transaction>)
    ensures var rows := BudgetRows(ts);
      && SumOf(rows, BudgetReal) == SumOf(Where(ResultLines(ts), IsReal), Balance)
      && SumOf(rows, BudgetProj) == SumOf(Where(ResultLines(ts), IsProjected), Balance)
      && SumOf(rows, BudgetTotal) == SumOf(rows, BudgetReal) + SumOf(rows, BudgetProj)
      && SumOf(rows, BudgetTotal) == SumOf(ResultLines(ts), Balance)
  {
    var lines := ResultLines(ts);
    var rowOf := (a: Option<nat>) => BudgetRowOf(lines, a);
    GroupRowsAddUp(lines, AnalyticOf, RealBalance, rowOf, BudgetReal);
    GroupRowsAddUp(lines, AnalyticOf, ProjectedBalance, rowOf, BudgetProj);
    GroupRowsAddUp(lines, AnalyticOf, Balance, rowOf, BudgetTotal);
    SplitSums(lines);
  }

  /** Summing the masked balances is summing the balances of the filtered lines. */
  lemma {:induction false} SplitSums(lines: seq<Transaction>)
    ensures SumOf(lines, RealBalance) == SumOf(Where(lines, IsReal), Balance)
    ensures SumOf(lines, ProjectedBalance) == SumOf(Where(lines, IsProjected), Balance)
    ensures SumOf(lines, Balance) == SumOf(lines, RealBalance) + SumOf(lines, ProjectedBalance)
  {
    if lines != [] {
      var init := lines[..|lines| - 1];
      var t := lines[|lines| - 1];
      SplitSums(init);
      LastSplit(lines);
      if IsReal(t) {
        WhereKeep(init, t, IsReal);
        WhereSkip(init, t, IsProjected);
        SumAppend(Where(init, IsReal), [t], Balance);
        SumSingle(t, Balance);
      } else {
        WhereSkip(init, t, IsReal);
        WhereKeep(init, t, IsProjected);
        SumAppend(Where(init, IsProjected), [t], Balance);
        SumSingle(t, Balance);
      }
    }
  }

  // ---------------------------------------------------------------------------
  // ReconciliationView and NextReconciliationView: the lines of a bank statement

  /** `latest('date')`: the latest of the dates, None where Django raises DoesNotExist. */
  function Latest(ds: seq<Date>): (r: Option<Date>)
    ensures r.None? <==> ds == []
    ensures r.Some? ==> r.value in ds && forall x :: x in ds ==> NotAfter(x, r.value)
  {
    if ds == [] then None
    else
      var p := Latest(ds[..|ds| - 1]);
      var last := ds[|ds| - 1];
      assert forall x :: x in ds <==> x in ds[..|ds| - 1] || x == last;
      if p.None? || NotAfter(p.value, last) then Some(last) else Some(p.value)
  }

  /** The statement dates strictly before d (`filter(date__lt=d)`). */
  function EarlierThan(statements: seq<Date>, d: Date): seq<Date> {
    Where(statements, (s: Date) => Before(s, d))
  }

  /** The date of the previous statement: the latest statement strictly before d. */
  function PreviousStatement(statements: seq<Date>, d: Date): (r: Option<Date>)
    ensures r.Some? <==> exists s :: s in statements && Before(s, d)
    ensures r.Some? ==> r.value in statements && Before(r.value, d)
    ensures r.Some? ==> forall s :: s in statements && Before(s, d) ==> NotAfter(s, r.value)
  {
    var earlier := EarlierThan(statements, d);
    assert (exists s :: s in statements && Before(s, d)) <==> earlier != [] by {
      if exists s :: s in statements && Before(s, d) {
        var s :| s in statements && Before(s, d);
        assert s in earlier;
      }
      if earlier != [] {
        assert earlier[0] in earlier;
      }
    }
    Latest(earlier)
  }

  /** A line of the bank account 5120000 on an entry that is not projected. */
  predicate BankLine(t: Transaction) {
    t.account == "5120000" && !t.entry.projected
  }

  /**
   * `cond & Q(reconciliation__lte=d) | Q(reconciliation=None, entry__date__lte=d)`:
   * `&` binds tighter than `|`, so either the line was reconciled after the
   * previous statement (any time, when there is none) and on or before d, or it
   * is not reconciled and its entry is dated on or before d. A NULL reconciliation
   * fails every comparison.
   */
  predicate InWindow(t: Transaction, previous: Option<Date>, d: Date) {
    || (t.reconciliation.Some?
        && (previous.None? || Before(previous.value, t.reconciliation.value))
        && NotAfter(t.reconciliation.value, d))
    || (t.reconciliation.None? && NotAfter(t.entry.date, d))
  }

  /** The selection of `ReconciliationView` for the statement dated d. */
  predicate InStatement(statements: seq<Date>, d: Date, t: Transaction) {
    BankLine(t) && InWindow(t, PreviousStatement(statements, d), d)
  }

  function StatementLines(ts: seq<Transaction>, statements: seq<Date>, d: Date): seq<Transaction> {
    Where(ts, (t: Transaction) => InStatement(statements, d, t))
  }

  /** A reconciled line appears on at most one of two statements of different dates. */
  lemma StatementsDisjoint(statements: seq<Date>, d1: Date, d2: Date, t: Transaction)
    requires d1 in statements && Before(d1, d2) && t.reconciliation.Some?
    ensures !(InStatement(statements, d1, t) && InStatement(statements, d2, t))
  {
    var p := PreviousStatement(statements, d2);
    assert p.Some? && NotAfter(d1, p.value);
  }

  /**
   * A reconciled bank line appears on the earliest statement dated on or after
   * its reconciliation date.
   */
  lemma ReconciledLineOnStatement(statements: seq<Date>, d: Date, t: Transaction)
    requires BankLine(t) && t.reconciliation.Some?
    requires d in statements && NotAfter(t.reconciliation.value, d)
    requires forall s :: s in statements && NotAfter(t.reconciliation.value, s) ==> NotAfter(d, s)
    ensures InStatement(statements, d, t)
  {
    var p := PreviousStatement(statements, d);
    if p.Some? {
      assert !NotAfter(t.reconciliation.value, p.value);
    }
  }

  /** The earliest of the dates, None for none. */
  function Earliest(ds: seq<Date>): (r: Option<Date>)
    ensures r.None? <==> ds == []
    ensures r.Some? ==> r.value in ds && forall x :: x in ds ==> NotAfter(r.value, x)
  {
    if ds == [] then None
    else
      var p := Earliest(ds[..|ds| - 1]);
      var last := ds[|ds| - 1];
      assert forall x :: x in ds <==> x in ds[..|ds| - 1] || x == last;
      if p.None? || NotAfter(last, p.value) then Some(last) else Some(p.value)
  }

  /**
   * Every reconciled bank line that some statement dated on or after its
   * reconciliation exists for is listed on one statement: with the disjointness
   * above, the statements partition the reconciled lines.
   */
  lemma ReconciledLineCovered(statements: seq<Date>, t: Transaction)
    requires BankLine(t) && t.reconciliation.Some?
    requires exists s :: s in statements && NotAfter(t.reconciliation.value, s)
    ensures exists d :: d in statements && InStatement(statements, d, t)
  {
    var r := t.reconciliation.value;
    var later := Where(statements, (s: Date) => NotAfter(r, s));
    var s0 :| s0 in statements && NotAfter(r, s0);
    assert s0 in later;
    var d := Earliest(later).value;
    forall s | s in statements && NotAfter(r, s)
      ensures NotAfter(d, s)
    {
      assert s in later;
    }
    ReconciledLineOnStatement(statements, d, t);
  }

  /** A line not yet reconciled is listed on every statement dated on or after its entry. */
  lemma UnreconciledLineRepeats(statements: seq<Date>, d: Date, t: Transaction)
    requires BankLine(t) && t.reconciliation.None? && NotAfter(t.entry.date, d)
    ensures InStatement(statements, d, t)
  {
  }

  /**
   * The selection of `NextReconciliationView`: bank lines reconciled after the
   * latest statement and on or before today, or not reconciled at all.
   */
  predicate InNextReconciliation(statements: seq<Date>, today: Date, t: Transaction) {
    && BankLine(t)
    && ((t.reconciliation.Some?
         && (Latest(statements).None? || Before(Latest(statements).value, t.reconciliation.value))
         && NotAfter(t.reconciliation.value, today))
        || t.reconciliation.None?)
  }

  function NextReconciliationLines(ts: seq<Transaction>, statements: seq<Date>, today: Date): seq<Transaction> {
    Where(ts, (t: Transaction) => InNextReconciliation(statements, today, t))
  }

  /** A reconciled line of the next reconciliation is listed on no existing statement. */
  lemma NextReconciliationIsNew(statements: seq<Date>, today: Date, t: Transaction, d: Date)
    requires InNextReconciliation(statements, today, t) && t.reconciliation.Some? && d in statements
    ensures !InStatement(statements, d, t)
  {
  }

  /** Every unreconciled bank line is listed for the next reconciliation. */
  lemma UnreconciledLineIsNext(statements: seq<Date>, today: Date, t: Transaction)
    requires BankLine(t) && t.reconciliation.None?
    ensures InNextReconciliation(statements, today, t)
  {
  }

  /**
   * A line on 5120000 reconciled on or before today, whether its entry is
   * projected or not: the rows of the next-reconciliation balance.
   */
  predicate ReconciledBy(today: Date, t: Transaction) {
    t.account == "5120000" && t.reconciliation.Some? && NotAfter(t.reconciliation.value, today)
  }

  function ReconciledLines(ts: seq<Transaction>, today: Date): seq<Transaction> {
    Where(ts, (t: Transaction) => ReconciledBy(today, t))
  }

  /**
   * `sums['expense'] - sums['revenue']`: None where both sums are NULL because no
   * line matches, and the subtraction raises TypeError.
   */
  function NextBalance(ts: seq<Transaction>, today: Date): (r: Option<int>)
    ensures r.Some? <==> exists t :: t in ts && ReconciledBy(today, t)
  {
    var rows := ReconciledLines(ts, today);
    if rows == [] then None
    else
      assert rows[0] in rows;
      Some(SumOf(rows, Expense) - SumOf(rows, Revenue))
  }

  /** The next-reconciliation balance is the bank's view of the reconciled lines: minus their balance. */
  lemma NextBalanceIsNegated(ts: seq<Transaction>, today: Date)
    requires NextBalance(ts, today).Some?
    ensures NextBalance(ts, today).value == -SumOf(ReconciledLines(ts, today), Balance)
  {
    BalanceSum(ReconciledLines(ts, today));
  }

  /** A further line reconciled by today adds its expense minus its revenue, even on a projected entry. */
  lemma NextBalanceAdds(ts: seq<Transaction>, today: Date, t: Transaction)
    requires ReconciledBy(today, t)
    ensures NextBalance(ts + [t], today)
      == Some((if NextBalance(ts, today).Some? then NextBalance(ts, today).value else 0) + t.expense - t.revenue)
  {
    ReconciledLinesSnoc(ts, today, t);
    BalanceSnoc(ReconciledLines(ts, today), t);
    NextBalanceOfRows(ts, today);
    NextBalanceOfRows(ts + [t], today);
  }

  /** One more row adds its expense and subtracts its revenue. */
  lemma BalanceSnoc(rows: seq<Transaction>, t: Transaction)
    ensures SumOf(rows + [t], Expense) - SumOf(rows + [t], Revenue)
      == SumOf(rows, Expense) - SumOf(rows, Revenue) + t.expense - t.revenue
  {
    assert (rows + [t])[..|rows|] == rows;
  }

  lemma ReconciledLinesSnoc(ts: seq<Transaction>, today: Date, t: Transaction)
    ensures ReconciledLines(ts + [t], today) == ReconciledLines(ts, today) + (if ReconciledBy(today, t) then [t] else [])
  {
    assert (ts + [t])[..|ts|] == ts;
  }

  /** The balance over the reconciled rows, in the two cases of its definition. */
  lemma NextBalanceOfRows(ts: seq<Transaction>, today: Date)
    ensures var rows := ReconciledLines(ts, today);
      && (rows == [] ==> NextBalance(ts, today).None?)
      && (rows != [] ==> NextBalance(ts, today) == Some(SumOf(rows, Expense) - SumOf(rows, Revenue)))
  {
  }

  /** A line not reconciled by today leaves the balance as it is. */
  lemma NextBalanceSkips(ts: seq<Transaction>, today: Date, t: Transaction)
    requires !ReconciledBy(today, t)
    ensures NextBalance(ts + [t], today) == NextBalance(ts, today)
  {
    WhereSkip(ts, t, (x: Transaction) => ReconciledBy(today, x));
  }

  // ---------------------------------------------------------------------------
  // CashFlowJsonView.serie: the daily cash-flow series

  /** `account__number__in=('5120000', '5300000'), reconciliation__year=season` */
  predicate CashFlowLine(season: int, t: Transaction) {
    (t.account == "5120000" || t.account == "5300000") && t.reconciliation.Some? && t.reconciliation.value.year == season
  }

  function CashFlowLines(ts: seq<Transaction>, season: int): seq<Transaction> {
    Where(ts, (t: Transaction) => CashFlowLine(season, t))
  }

  /** The reconciliation day, the key of the grouped cash-flow query (only read on reconciled lines). */
  function ReconciliationDay(t: Transaction): Date {
    if t.reconciliation.Some? then t.reconciliation.value else Date(1, 1, 1)
  }

  /** The dates the database holds are real dates. */
  predicate ReconciliationsValid(ts: seq<Transaction>) {
    forall t :: t in ts && t.reconciliation.Some? ==> Valid(t.reconciliation.value)
  }

  /**
   * The grouped query `order_by('-reconciliation').values('reconciliation')
   * .annotate(balance=Sum('revenue') - Sum('expense'))`: one group per
   * reconciliation day of the rows, latest first, carrying the day's balance.
   */
  predicate GroupedByDay(groups: seq<Group>, rows: seq<Transaction>) {
    && Descending(groups)
    && (forall i :: 0 <= i < |groups| ==> groups[i].amount == GroupSum(rows, ReconciliationDay, groups[i].day, Balance))
    && (forall i :: 0 <= i < |groups| ==> groups[i].day in MapSeq(rows, ReconciliationDay))
    && (forall t :: t in rows ==> ReconciliationDay(t) in MapSeq(groups, GroupDay))
  }

  function GroupDay(g: Group): Date {
    g.day
  }

  predicate ReconciledOnOrBefore(d: Date, t: Transaction) {
    NotAfter(ReconciliationDay(t), d)
  }

  /** The balance of a line reconciled on or before d, else 0. */
  function BalanceBy(d: Date, t: Transaction): int {
    if ReconciledOnOrBefore(d, t) then Balance(t) else 0
  }

  /** The total of the groups dated on or before d, group by group. */
  lemma {:induction false} UpToGroups(groups: seq<Group>, rows: seq<Transaction>, d: Date)
    requires forall i :: 0 <= i < |groups| ==> groups[i].amount == GroupSum(rows, ReconciliationDay, groups[i].day, Balance)
    ensures UpTo(groups, d) == SumOf(groups, (g: Group) => GroupSum(rows, ReconciliationDay, g.day, (t: Transaction) => BalanceBy(d, t)))
  {
    if groups != [] {
      var g := groups[|groups| - 1];
      UpToGroups(groups[..|groups| - 1], rows, d);
      if NotAfter(g.day, d) {
        GroupSumExt(rows, ReconciliationDay, g.day, Balance, (t: Transaction) => BalanceBy(d, t));
      } else {
        GroupSumVanishes(rows, ReconciliationDay, g.day, (t: Transaction) => BalanceBy(d, t));
      }
    }
  }

  /** The total of the groups dated on or before d is the balance of the rows reconciled on or before d. */
  lemma CashUpTo(groups: seq<Group>, rows: seq<Transaction>, d: Date)
    requires GroupedByDay(groups, rows)
    ensures UpTo(groups, d) == SumOf(Where(rows, (t: Transaction) => ReconciledOnOrBefore(d, t)), Balance)
  {
    UpToGroups(groups, rows, d);
    GroupsCoverRows(groups, rows, d);
    RowsBalanceBy(rows, d);
  }

  /** Summed over groups with distinct days that cover the rows, the group sums give the row sum. */
  lemma GroupsCoverRows(groups: seq<Group>, rows: seq<Transaction>, d: Date)
    requires Descending(groups)
    requires forall t :: t in rows ==> ReconciliationDay(t) in MapSeq(groups, GroupDay)
    ensures SumOf(groups, (g: Group) => GroupSum(rows, ReconciliationDay, g.day, (t: Transaction) => BalanceBy(d, t)))
      == SumOf(rows, (t: Transaction) => BalanceBy(d, t))
  {
    forall t | t in rows
      ensures exists g :: g in groups && GroupDay(g) == ReconciliationDay(t)
    {
      var i :| 0 <= i < |groups| && MapSeq(groups, GroupDay)[i] == ReconciliationDay(t);
      assert groups[i] in groups;
    }
    GroupSumsCoveredBy(rows, ReconciliationDay, (t: Transaction) => BalanceBy(d, t), groups, GroupDay,
      (g: Group) => GroupSum(rows, ReconciliationDay, g.day, (t: Transaction) => BalanceBy(d, t)));
  }

  lemma RowsBalanceBy(rows: seq<Transaction>, d: Date)
    ensures SumOf(rows, (t: Transaction) => BalanceBy(d, t))
      == SumOf(Where(rows, (t: Transaction) => ReconciledOnOrBefore(d, t)), Balance)
  {
    SumWhereBy(rows, (t: Transaction) => ReconciledOnOrBefore(d, t), Balance, (t: Transaction) => BalanceBy(d, t));
  }

  /** `min(date(season, 12, 31), today)`, where the view's `today` is yesterday. */
  function CashFlowEnd(season: int, yesterday: Date): Date {
    if NotAfter(Date(season, 12, 31), yesterday) then Date(season, 12, 31) else yesterday
  }

  /**
   * The series of `CashFlowJsonView.serie` for a season, given yesterday's date
   * (the view's `today`) and the grouped query on the season's reconciled bank
   * and cash lines. Its days run from 1 January to the end day, 29 February
   * excepted, and the value of each day is minus the balance of the lines
   * reconciled on or before it.
   */
  method CashFlowSerie(ts: seq<Transaction>, season: int, yesterday: Date, groups: seq<Group>) returns (data: seq<(Date, int)>)
    requires season >= 1 && ReconciliationsValid(ts)
    requires GroupedByDay(groups, CashFlowLines(ts, season))
    ensures data == Points(groups, Date(season, 1, 1), DayCount(Date(season, 1, 1), CashFlowEnd(season, yesterday)), true)
    ensures forall i :: 0 <= i < |data| ==>
      data[i].1 == -SumOf(Where(CashFlowLines(ts, season), (t: Transaction) => ReconciledOnOrBefore(data[i].0, t)), Balance)
  {
    var start := Date(season, 1, 1);
    data := Serie(start, CashFlowEnd(season, yesterday), groups, true);
    CashFlowValues(ts, season, yesterday, groups);
  }

  /** The value of each day of the cash-flow series. */
  lemma CashFlowValues(ts: seq<Transaction>, season: int, yesterday: Date, groups: seq<Group>)
    requires season >= 1 && ReconciliationsValid(ts)
    requires GroupedByDay(groups, CashFlowLines(ts, season))
    ensures var p := Points(groups, Date(season, 1, 1), DayCount(Date(season, 1, 1), CashFlowEnd(season, yesterday)), true);
      forall i :: 0 <= i < |p| ==>
        p[i].1 == -SumOf(Where(CashFlowLines(ts, season), (t: Transaction) => ReconciledOnOrBefore(p[i].0, t)), Balance)
  {
    var start := Date(season, 1, 1);
    var rows := CashFlowLines(ts, season);
    GroupsInSeason(ts, season, groups);
    var n := DayCount(start, CashFlowEnd(season, yesterday));
    var p := Points(groups, start, n, true);
    forall i | 0 <= i < |p|
      ensures p[i].1 == -SumOf(Where(rows, (t: Transaction) => ReconciledOnOrBefore(p[i].0, t)), Balance)
    {
      PointValue(groups, start, n, true, i);
      CashUpTo(groups, rows, p[i].0);
    }
  }

  /** The query only returns days of the season. */
  lemma GroupsInSeason(ts: seq<Transaction>, season: int, groups: seq<Group>)
    requires season >= 1 && ReconciliationsValid(ts)
    requires forall i :: 0 <= i < |groups| ==> groups[i].day in MapSeq(CashFlowLines(ts, season), ReconciliationDay)
    ensures AllValid(groups)
    ensures forall i :: 0 <= i < |groups| ==> NotAfter(Date(season, 1, 1), groups[i].day)
  {
    var rows := CashFlowLines(ts, season);
    forall i | 0 <= i < |groups|
      ensures Valid(groups[i].day) && NotAfter(Date(season, 1, 1), groups[i].day)
    {
      var j :| 0 <= j < |rows| && MapSeq(rows, ReconciliationDay)[j] == groups[i].day;
      var t := rows[j];
      assert t in rows;
      assert t in ts && CashFlowLine(season, t);
      var r := t.reconciliation.value;
      assert Valid(r) && r.year == season && r == groups[i].day;
    }
  }

  /**
   * The days of the cash-flow series are exactly the days from 1 January of the
   * season to the end day, 29 February excepted.
   */
  lemma CashFlowDays(season: int, yesterday: Date, groups: seq<Group>, x: Date)
    requires season >= 1 && Valid(yesterday) && Valid(x)
    ensures var p := Points(groups, Date(season, 1, 1), DayCount(Date(season, 1, 1), CashFlowEnd(season, yesterday)), true);
      (exists i :: 0 <= i < |p| && p[i].0 == x)
        <==> (x.year >= season && NotAfter(x, yesterday) && x.year <= season && !IsLeapDay(x))
  {
    SerieDays(groups, Date(season, 1, 1), CashFlowEnd(season, yesterday), true, x);
  }
}

