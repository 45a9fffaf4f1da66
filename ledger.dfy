/**
 * The ledger records that the year-end closing command and the accounting
 * views read: fiscal years, entries and their transaction lines. Amounts are
 * fixed-point decimals with two places, held here as integer cents.
 */
module Ledger {

  import opened Common
  import opened Calendar
  import opened Text

  /** A fiscal year (`Year`): its primary key, its title (what `str(year)` shows) and its first day. */
  datatype Year = Year(id: nat, title: string, start: Date)

  /** An entry (`Entry`): the posting event a transaction line belongs to. */
  datatype Entry = Entry(id: nat, year: nat, date: Date, title: string, journal: string, projected: bool)

  /**
   * A transaction line (`Transaction`): the entry it belongs to, the account number,
   * the optional third party and analytic code, the line title, the expense (debit)
   * and revenue (credit) in cents, the optional bank reconciliation date and the
   * optional letter (lettering cluster) id.
   */
  datatype Transaction = Transaction(
    entry: Entry,
    account: string,
    thirdparty: Option<string>,
    analytic: Option<nat>,
    title: string,
    expense: int,
    revenue: int,
    reconciliation: Option<Date>,
    letter: Option<nat>)

  /** `revenue - expense` of one line. */
  function Balance(t: Transaction): int {
    t.revenue - t.expense
  }

  function Revenue(t: Transaction): int {
    t.revenue
  }

  function Expense(t: Transaction): int {
    t.expense
  }

  /** The account number, the key of per-account groups. */
  function AccountOf(t: Transaction): string {
    t.account
  }

  /** The account number starts with one of the given digits (`account__number__regex='^[...]'`). */
  predicate AccountClass(t: Transaction, digits: set<char>) {
    FirstCharIn(t.account, digits)
  }

  /** Summing balances is summing revenues minus summing expenses. */
  lemma BalanceSum(s: seq<Transaction>)
    ensures SumOf(s, Balance) == SumOf(s, Revenue) - SumOf(s, Expense)
  {
    SumAdd(s, Revenue, (t: Transaction) => -t.expense, Balance);
    NegatedSum(s);
  }

  lemma {:induction false} NegatedSum(s: seq<Transaction>)
    ensures SumOf(s, (t: Transaction) => -t.expense) == -SumOf(s, Expense)
  {
    if s != [] {
      NegatedSum(s[..|s| - 1]);
    }
  }
}
