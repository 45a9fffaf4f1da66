/**
 * The year-end carry-forward (`closing` management command): one new entry in
 * the new fiscal year, holding
 *   - one line per class 1/2/5 account with unlettered old-year lines, carrying
 *     the account's net balance split into expense or revenue;
 *   - a copy of every unlettered class-4 (third-party) line of the old year;
 *   - the class 6/7 result of the old year, on 1200000 (profit) or 1290000 (loss).
 * The queries are evaluated against the rows as they stand when each loop starts,
 * as the command does; the lemmas show the rows it has already created never
 * match a later query.
 */
module Closing {

  import opened Common
  import opened Calendar
  import opened Text
  import opened Ledger

  /** Unlettered old-year line on a class 1, 2 or 5 account: netted per account. */
  predicate Netted(oldYear: Year, t: Transaction) {
    t.entry.year == oldYear.id && t.letter.None? && AccountClass(t, {'1', '2', '5'})
  }

  /** Unlettered old-year line on a class 4 account: copied line by line. */
  predicate Copied(oldYear: Year, t: Transaction) {
    t.entry.year == oldYear.id && t.letter.None? && AccountClass(t, {'4'})
  }

  /** Old-year line on a class 6 or 7 account, lettered or not: part of the result. */
  predicate InResult(oldYear: Year, t: Transaction) {
    t.entry.year == oldYear.id && AccountClass(t, {'6', '7'})
  }

  function NettedRows(ts: seq<Transaction>, oldYear: Year): seq<Transaction> {
    Where(ts, (t: Transaction) => Netted(oldYear, t))
  }

  function CopiedRows(ts: seq<Transaction>, oldYear: Year): seq<Transaction> {
    Where(ts, (t: Transaction) => Copied(oldYear, t))
  }

  function ResultRows(ts: seq<Transaction>, oldYear: Year): seq<Transaction> {
    Where(ts, (t: Transaction) => InResult(oldYear, t))
  }

  /** The accounts of the netted rows, one per GROUP BY group. */
  function NettedAccounts(ts: seq<Transaction>, oldYear: Year): seq<string> {
    Keys(NettedRows(ts, oldYear), AccountOf)
  }

  /** `Sum('revenue') - Sum('expense')` of one account's netted rows. */
  function NetBalance(rows: seq<Transaction>, account: string): int {
    GroupSum(rows, AccountOf, account, Balance)
  }

  /**
   * The class 6/7 aggregate `Sum('revenue') - Sum('expense')`: None when no row
   * matches, since SQL SUM over no rows is NULL.
   */
  function ResultBalance(ts: seq<Transaction>, oldYear: Year): (r: Option<int>)
    ensures r.Some? <==> exists t :: t in ts && InResult(oldYear, t)
  {
    var rows := ResultRows(ts, oldYear);
    if rows == [] then None
    else
      assert rows[0] in rows;
      Some(SumOf(rows, Balance))
  }

  /** The entry the command creates first. */
  function NewEntry(id: nat, newYear: Year): Entry {
    Entry(id, newYear.id, newYear.start, "A nouveaux", "OD", false)
  }

  /** A new line on the entry carrying balance b as `max(-b, 0)` expense and `max(b, 0)` revenue. */
  function SplitLine(entry: Entry, account: string, title: string, thirdparty: Option<string>, b: int): (r: Transaction)
    ensures r.expense >= 0 && r.revenue >= 0 && (r.expense == 0 || r.revenue == 0)
    ensures Balance(r) == b
    ensures r.entry == entry && r.account == account && r.letter.None? && r.reconciliation.None?
  {
    Transaction(entry, account, thirdparty, None, title,
                if -b > 0 then -b else 0, if b > 0 then b else 0, None, None)
  }

  function NetLine(entry: Entry, rows: seq<Transaction>, account: string): Transaction {
    SplitLine(entry, account, "", None, NetBalance(rows, account))
  }

  function NetLinesFor(entry: Entry, rows: seq<Transaction>, accounts: seq<string>): (r: seq<Transaction>)
    ensures |r| == |accounts|
    ensures forall i :: 0 <= i < |r| ==>
      r[i].entry == entry && r[i].account == accounts[i] && Balance(r[i]) == NetBalance(rows, accounts[i])
      && r[i].expense >= 0 && r[i].revenue >= 0 && (r[i].expense == 0 || r[i].revenue == 0)
      && r[i].letter.None? && r[i].reconciliation.None?
  {
    MapSeq(accounts, (a: string) => NetLine(entry, rows, a))
  }

  /** The lines of the first loop. */
  function NetLines(ts: seq<Transaction>, oldYear: Year, entry: Entry): seq<Transaction> {
    NetLinesFor(entry, NettedRows(ts, oldYear), NettedAccounts(ts, oldYear))
  }

  /** A copy on the new entry of one third-party line: title, account, third party and amounts. */
  function CopyLine(entry: Entry, t: Transaction): Transaction {
    Transaction(entry, t.account, t.thirdparty, None, t.title, t.expense, t.revenue, None, None)
  }

  function CopyLinesFor(entry: Entry, rows: seq<Transaction>): (r: seq<Transaction>)
    ensures |r| == |rows|
    ensures forall i :: 0 <= i < |r| ==>
      r[i].entry == entry && r[i].letter.None? && r[i].reconciliation.None?
  {
    MapSeq(rows, (t: Transaction) => CopyLine(entry, t))
  }

  /** The lines of the second loop. */
  function CopyLines(ts: seq<Transaction>, oldYear: Year, entry: Entry): seq<Transaction> {
    CopyLinesFor(entry, CopiedRows(ts, oldYear))
  }

  /** 1290000 for a loss, 1200000 for a profit or a zero result. */
  function ResultAccount(b: int): string {
    if b < 0 then "1290000" else "1200000"
  }

  /** The result line: on 1290000 exactly for a loss, carrying the result as its balance. */
  function ResultLine(entry: Entry, oldYear: Year, b: int): (r: Transaction)
    ensures r.account == "1290000" <==> b < 0
    ensures r.account == "1200000" <==> b >= 0
    ensures Balance(r) == b && r.expense >= 0 && r.revenue >= 0 && (r.expense == 0 || r.revenue == 0)
    ensures r.entry == entry
  {
    SplitLine(entry, ResultAccount(b), "Résultat de l'exercice " + oldYear.title, None, b)
  }

  /**
   * Every line the command creates, in creation order. When the old year has no
   * class 6/7 line, the command fails at the result and only the first two loops'
   * lines exist.
   */
  function CarriedLines(ts: seq<Transaction>, oldYear: Year, entry: Entry): (r: seq<Transaction>)
    ensures forall i :: 0 <= i < |r| ==> r[i].entry == entry && r[i].letter.None? && r[i].reconciliation.None?
  {
    var b := ResultBalance(ts, oldYear);
    NetLines(ts, oldYear, entry) + CopyLines(ts, oldYear, entry)
    + (if b.Some? then [ResultLine(entry, oldYear, b.value)] else [])
  }

  /** Every line belongs to one of the entries. */
  predicate LinesOnEntries(ts: seq<Transaction>, es: seq<Entry>) {
    forall t :: t in ts ==> t.entry in es
  }

  /** Adding an entry and lines on it keeps every line on a stored entry. */
  lemma NewLinesOnEntries(ts: seq<Transaction>, es: seq<Entry>, lines: seq<Transaction>, entry: Entry)
    requires LinesOnEntries(ts, es)
    requires forall i :: 0 <= i < |lines| ==> lines[i].entry == entry
    ensures LinesOnEntries(ts + lines, es + [entry])
  {
    forall t | t in ts + lines
      ensures t.entry in es + [entry]
    {
      if t !in ts {
        var k :| 0 <= k < |lines| && lines[k] == t;
      }
    }
  }

  /** The new entry and its lines keep every line on a stored entry, and the ids below the next one. */
  lemma CloseKeepsValid(ts: seq<Transaction>, es: seq<Entry>, next: nat, oldYear: Year, newYear: Year)
    requires LinesOnEntries(ts, es) && forall e :: e in es ==> e.id < next
    ensures var entry := NewEntry(next, newYear);
      && LinesOnEntries(ts + CarriedLines(ts, oldYear, entry), es + [entry])
      && forall e :: e in es + [entry] ==> e.id < next + 1
  {
    var entry := NewEntry(next, newYear);
    NewLinesOnEntries(ts, es, CarriedLines(ts, oldYear, entry), entry);
  }

  /** The ledger tables the command reads and writes. */
  class Books {
    var entries: seq<Entry>
    var transactions: seq<Transaction>
    var nextEntryId: nat

    /** Every line belongs to a stored entry, and every stored entry has an id below the next one. */
    predicate Valid()
      reads this
    {
      LinesOnEntries(transactions, entries) && (forall e :: e in entries ==> e.id < nextEntryId)
    }

    constructor ()
      ensures Valid() && entries == [] && transactions == [] && nextEntryId == 1
    {
      entries := [];
      transactions := [];
      nextEntryId := 1;
    }

    /**
     * `closing old_year new_year`. Returns false where the command raises
     * (no class 6/7 line in the old year); the rows created before that point stay,
     * since the command does not run inside a database transaction.
     */
    method Close(oldYear: Year, newYear: Year) returns (ok: bool)
      requires Valid()
      modifies this
      ensures Valid()
      ensures nextEntryId == old(nextEntryId) + 1
      ensures entries == old(entries) + [NewEntry(old(nextEntryId), newYear)]
      ensures transactions == old(transactions) + CarriedLines(old(transactions), oldYear, NewEntry(old(nextEntryId), newYear))
      ensures ok <==> ResultBalance(old(transactions), oldYear).Some?
    {
      var entry := NewEntry(nextEntryId, newYear);
      entries := entries + [entry];
      nextEntryId := nextEntryId + 1;
      ghost var base := transactions;

      PostNetLines(entry, oldYear);
      PostCopies(entry, oldYear);
      CloseTransactions(base, oldYear, entry, transactions);

      // classes 6 and 7: the result
      var balance := ResultBalance(transactions, oldYear);
      if balance.None? {
        ok := false;
      } else {
        var line := ResultLine(entry, oldYear, balance.value);
        transactions := transactions + [line];
        ok := true;
      }
      assert transactions == base + CarriedLines(base, oldYear, entry);
      CloseKeepsValid(base, old(entries), old(nextEntryId), oldYear, newYear);
    }

    /** The first loop: one line per class 1/2/5 account with unlettered old-year lines. */
    method PostNetLines(entry: Entry, oldYear: Year)
      modifies this
      ensures entries == old(entries) && nextEntryId == old(nextEntryId)
      ensures transactions == old(transactions) + NetLines(old(transactions), oldYear, entry)
    {
      var rows := NettedRows(transactions, oldYear);
      var accounts := Keys(rows, AccountOf);
      var i := 0;
      while i < |accounts|
        invariant 0 <= i <= |accounts|
        invariant entries == old(entries) && nextEntryId == old(nextEntryId)
        invariant transactions == old(transactions) + NetLinesFor(entry, rows, accounts[..i])
      {
        MapSeqSnoc(accounts, i, (a: string) => NetLine(entry, rows, a));
        transactions := transactions + [NetLine(entry, rows, accounts[i])];
        i := i + 1;
      }
      assert accounts[..i] == accounts;
    }

    /** The second loop: a copy of every unlettered class-4 old-year line. */
    method PostCopies(entry: Entry, oldYear: Year)
      modifies this
      ensures entries == old(entries) && nextEntryId == old(nextEntryId)
      ensures transactions == old(transactions) + CopyLines(old(transactions), oldYear, entry)
    {
      var copies := CopiedRows(transactions, oldYear);
      var j := 0;
      while j < |copies|
        invariant 0 <= j <= |copies|
        invariant entries == old(entries) && nextEntryId == old(nextEntryId)
        invariant transactions == old(transactions) + CopyLinesFor(entry, copies[..j])
      {
        MapSeqSnoc(copies, j, (t: Transaction) => CopyLine(entry, t));
        transactions := transactions + [CopyLine(entry, copies[j])];
        j := j + 1;
      }
      assert copies[..j] == copies;
    }
  }

  /**
   * The rows the first two loops create are never picked up by the queries that
   * follow them: running each query on the current rows is running it on the rows
   * as they stood before the command.
   */
  lemma LaterQueriesUnaffected(ts: seq<Transaction>, oldYear: Year, entry: Entry)
    ensures CopyLines(ts + NetLines(ts, oldYear, entry), oldYear, entry) == CopyLines(ts, oldYear, entry)
    ensures ResultBalance(ts + NetLines(ts, oldYear, entry) + CopyLines(ts, oldYear, entry), oldYear)
         == ResultBalance(ts, oldYear)
    ensures var b := ResultBalance(ts, oldYear);
      CarriedLines(ts, oldYear, entry)
      == NetLines(ts, oldYear, entry) + CopyLines(ts, oldYear, entry) + (if b.Some? then [ResultLine(entry, oldYear, b.value)] else [])
  {
    var nets := NetLines(ts, oldYear, entry);
    var copied := CopyLines(ts, oldYear, entry);
    NetLinesInert(ts, oldYear, entry);
    CopyLinesInert(ts, oldYear, entry);
    WhereAppend(ts + nets, copied, (t: Transaction) => InResult(oldYear, t));
    assert ResultRows(ts, oldYear) + [] == ResultRows(ts, oldYear);
  }

  /**
   * After the first two loops the result query still sees the old year as it
   * was, and adding the result line completes the carried lines.
   */
  lemma CloseTransactions(ts: seq<Transaction>, oldYear: Year, entry: Entry, after: seq<Transaction>)
    requires after == ts + NetLines(ts, oldYear, entry) + CopyLines(ts + NetLines(ts, oldYear, entry), oldYear, entry)
    ensures ResultBalance(after, oldYear) == ResultBalance(ts, oldYear)
    ensures var b := ResultBalance(ts, oldYear);
      after + (if b.Some? then [ResultLine(entry, oldYear, b.value)] else []) == ts + CarriedLines(ts, oldYear, entry)
  {
    var nets := NetLines(ts, oldYear, entry);
    var copied := CopyLines(ts, oldYear, entry);
    LaterQueriesUnaffected(ts, oldYear, entry);
    var b := ResultBalance(ts, oldYear);
    ConcatAssoc(ts, nets, copied, if b.Some? then [ResultLine(entry, oldYear, b.value)] else []);
  }

  /** Every netted account is a class 1, 2 or 5 account. */
  lemma NettedAccountsClass(ts: seq<Transaction>, oldYear: Year)
    ensures forall a :: a in NettedAccounts(ts, oldYear) ==> FirstCharIn(a, {'1', '2', '5'})
  {
    forall a | a in NettedAccounts(ts, oldYear)
      ensures FirstCharIn(a, {'1', '2', '5'})
    {
      var t :| t in NettedRows(ts, oldYear) && AccountOf(t) == a;
    }
  }

  lemma NetLinesAccounts(entry: Entry, rows: seq<Transaction>, accounts: seq<string>)
    ensures forall l :: l in NetLinesFor(entry, rows, accounts) ==> l.account in accounts
  {
    var nets := NetLinesFor(entry, rows, accounts);
    forall l | l in nets
      ensures l.account in accounts
    {
      var k :| 0 <= k < |nets| && nets[k] == l;
    }
  }

  /**
   * The lines of the first loop are on class 1/2/5 accounts: the class 4 and
   * class 6/7 queries that follow see the same rows as before the loop.
   */
  lemma NetLinesInert(ts: seq<Transaction>, oldYear: Year, entry: Entry)
    ensures CopiedRows(ts + NetLines(ts, oldYear, entry), oldYear) == CopiedRows(ts, oldYear)
    ensures ResultRows(ts + NetLines(ts, oldYear, entry), oldYear) == ResultRows(ts, oldYear)
  {
    var nets := NetLines(ts, oldYear, entry);
    NettedAccountsClass(ts, oldYear);
    NetLinesAccounts(entry, NettedRows(ts, oldYear), NettedAccounts(ts, oldYear));
    forall l | l in nets
      ensures !Copied(oldYear, l) && !InResult(oldYear, l)
    {
      var c := l.account[0];
      assert c == '1' || c == '2' || c == '5';
    }
    WhereAppend(ts, nets, (t: Transaction) => Copied(oldYear, t));
    WhereNone(nets, (t: Transaction) => Copied(oldYear, t));
    WhereAppend(ts, nets, (t: Transaction) => InResult(oldYear, t));
    WhereNone(nets, (t: Transaction) => InResult(oldYear, t));
    assert CopiedRows(ts, oldYear) + [] == CopiedRows(ts, oldYear);
    assert ResultRows(ts, oldYear) + [] == ResultRows(ts, oldYear);
  }

  /** The lines of the second loop are on class 4 accounts: the class 6/7 query is unaffected. */
  lemma CopyLinesInert(ts: seq<Transaction>, oldYear: Year, entry: Entry)
    ensures ResultRows(CopyLines(ts, oldYear, entry), oldYear) == []
  {
    var copies := CopyLines(ts, oldYear, entry);
    var rows := CopiedRows(ts, oldYear);
    forall l | l in copies
      ensures !InResult(oldYear, l)
    {
      var k :| 0 <= k < |copies| && copies[k] == l;
      assert rows[k] in rows;
    }
    WhereNone(copies, (t: Transaction) => InResult(oldYear, t));
  }

  // ---------------------------------------------------------------------------
  // What the carry-forward promises

  /** Every class 1/2/5 account with an unlettered old-year line gets a line. */
  lemma NetLinesCoverAccounts(ts: seq<Transaction>, oldYear: Year, entry: Entry)
    ensures var lines := NetLines(ts, oldYear, entry);
      forall t :: t in ts && Netted(oldYear, t) ==> exists i :: 0 <= i < |lines| && lines[i].account == t.account
  {
    var lines := NetLines(ts, oldYear, entry);
    var accounts := NettedAccounts(ts, oldYear);
    forall t | t in ts && Netted(oldYear, t)
      ensures exists i :: 0 <= i < |lines| && lines[i].account == t.account
    {
      assert t in NettedRows(ts, oldYear) && AccountOf(t) == t.account;
      assert t.account in accounts;
      var i :| 0 <= i < |accounts| && accounts[i] == t.account;
      assert lines[i].account == t.account;
    }
  }

  /** Every line of the first loop is on an account with unlettered old-year class 1/2/5 lines. */
  lemma NetLinesOnlyNettedAccounts(ts: seq<Transaction>, oldYear: Year, entry: Entry)
    ensures var lines := NetLines(ts, oldYear, entry);
      forall i :: 0 <= i < |lines| ==> exists t :: t in ts && Netted(oldYear, t) && t.account == lines[i].account
  {
    var lines := NetLines(ts, oldYear, entry);
    var accounts := NettedAccounts(ts, oldYear);
    forall i | 0 <= i < |lines|
      ensures exists t :: t in ts && Netted(oldYear, t) && t.account == lines[i].account
    {
      assert accounts[i] in accounts;
      var t :| t in NettedRows(ts, oldYear) && AccountOf(t) == accounts[i];
    }
  }

  /**
   * No account gets two lines, and each line's balance is the account's net
   * balance over its unlettered old-year lines.
   */
  lemma NetLinesOnePerAccount(ts: seq<Transaction>, oldYear: Year, entry: Entry)
    ensures var lines := NetLines(ts, oldYear, entry);
      && (forall i, j :: 0 <= i < j < |lines| ==> lines[i].account != lines[j].account)
      && (forall i :: 0 <= i < |lines| ==>
            Balance(lines[i]) == GroupSum(NettedRows(ts, oldYear), AccountOf, lines[i].account, Balance))
  {
    KeysDistinct(NettedRows(ts, oldYear), AccountOf);
  }

  /**
   * Every unlettered old-year class-4 line is copied once, in its own line, with
   * its title, account, third party, expense and revenue.
   */
  lemma CopiesAreExact(ts: seq<Transaction>, oldYear: Year, entry: Entry)
    ensures var rows := CopiedRows(ts, oldYear);
      var copies := CopyLines(ts, oldYear, entry);
      && |copies| == |rows|
      && (forall t :: t in rows <==> t in ts && Copied(oldYear, t))
      && (forall i :: 0 <= i < |copies| ==>
            copies[i].entry == entry && copies[i].title == rows[i].title && copies[i].account == rows[i].account
            && copies[i].thirdparty == rows[i].thirdparty
            && copies[i].expense == rows[i].expense && copies[i].revenue == rows[i].revenue)
  {
  }

  /** A line none of the three queries selects changes nothing in what is carried forward. */
  lemma UnselectedLineIgnored(ts: seq<Transaction>, oldYear: Year, entry: Entry, u: Transaction)
    requires !Netted(oldYear, u) && !Copied(oldYear, u) && !InResult(oldYear, u)
    ensures CarriedLines(ts + [u], oldYear, entry) == CarriedLines(ts, oldYear, entry)
  {
    WhereSkip(ts, u, (t: Transaction) => Netted(oldYear, t));
    WhereSkip(ts, u, (t: Transaction) => Copied(oldYear, t));
    WhereSkip(ts, u, (t: Transaction) => InResult(oldYear, t));
  }

  /** Lettered lines of classes 1, 2, 4 and 5 are never carried forward. */
  lemma LetteredNotCarried(ts: seq<Transaction>, oldYear: Year, entry: Entry, u: Transaction)
    requires u.letter.Some? && AccountClass(u, {'1', '2', '4', '5'})
    ensures CarriedLines(ts + [u], oldYear, entry) == CarriedLines(ts, oldYear, entry)
  {
    var c := u.account[0];
    assert c == '1' || c == '2' || c == '4' || c == '5';
    UnselectedLineIgnored(ts, oldYear, entry, u);
  }

  /** Accounts of classes 0, 3, 8, 9 (or any other first character) contribute nothing. */
  lemma OtherClassesIgnored(ts: seq<Transaction>, oldYear: Year, entry: Entry, u: Transaction)
    requires !AccountClass(u, {'1', '2', '4', '5', '6', '7'})
    ensures CarriedLines(ts + [u], oldYear, entry) == CarriedLines(ts, oldYear, entry)
  {
    UnselectedLineIgnored(ts, oldYear, entry, u);
  }

  /** Lines of other years contribute nothing. */
  lemma OtherYearsIgnored(ts: seq<Transaction>, oldYear: Year, entry: Entry, u: Transaction)
    requires u.entry.year != oldYear.id
    ensures CarriedLines(ts + [u], oldYear, entry) == CarriedLines(ts, oldYear, entry)
  {
    UnselectedLineIgnored(ts, oldYear, entry, u);
  }

  /** Every class 6/7 line of the old year, lettered or not, adds its balance to the result. */
  lemma ResultIncludesLettered(ts: seq<Transaction>, oldYear: Year, u: Transaction)
    requires InResult(oldYear, u)
    ensures ResultBalance(ts + [u], oldYear) == Some(SumOf(ResultRows(ts, oldYear), Balance) + Balance(u))
  {
    var rows := ResultRows(ts, oldYear);
    assert ResultRows(ts + [u], oldYear) == rows + [u] by {
      WhereKeep(ts, u, (t: Transaction) => InResult(oldYear, t));
    }
    assert SumOf(rows + [u], Balance) == SumOf(rows, Balance) + Balance(u) by {
      assert (rows + [u])[..|rows|] == rows;
    }
    assert ResultBalance(ts + [u], oldYear) == Some(SumOf(rows + [u], Balance));
  }

  lemma {:induction false} NetLinesSum(entry: Entry, rows: seq<Transaction>, accounts: seq<string>)
    ensures SumOf(NetLinesFor(entry, rows, accounts), Balance)
         == SumOf(accounts, (a: string) => GroupSum(rows, AccountOf, a, Balance))
  {
    if accounts != [] {
      var n := |accounts|;
      NetLinesSum(entry, rows, accounts[..n - 1]);
      MapSeqSnoc(accounts, n - 1, (a: string) => NetLine(entry, rows, a));
      assert accounts[..n] == accounts;
    }
  }

  lemma {:induction false} CopyLinesSum(entry: Entry, rows: seq<Transaction>)
    ensures SumOf(CopyLinesFor(entry, rows), Balance) == SumOf(rows, Balance)
  {
    if rows != [] {
      var n := |rows|;
      CopyLinesSum(entry, rows[..n - 1]);
      MapSeqSnoc(rows, n - 1, (t: Transaction) => CopyLine(entry, t));
      assert rows[..n] == rows;
    }
  }

  /**
   * Conservation: the netted lines carry the total balance of the netted rows,
   * the copies that of the copied rows, and the result line that of the class 6/7
   * rows; so the new entry carries the balance of all the rows it summarises.
   */
  lemma CarryForwardConserves(ts: seq<Transaction>, oldYear: Year, entry: Entry)
    ensures SumOf(NetLines(ts, oldYear, entry), Balance) == SumOf(NettedRows(ts, oldYear), Balance)
    ensures SumOf(CopyLines(ts, oldYear, entry), Balance) == SumOf(CopiedRows(ts, oldYear), Balance)
    ensures ResultBalance(ts, oldYear).Some? ==>
      SumOf(CarriedLines(ts, oldYear, entry), Balance)
      == SumOf(NettedRows(ts, oldYear) + CopiedRows(ts, oldYear) + ResultRows(ts, oldYear), Balance)
  {
    var rows := NettedRows(ts, oldYear);
    NetLinesSum(entry, rows, NettedAccounts(ts, oldYear));
    GroupSumsAddUp(rows, AccountOf, Balance);
    CopyLinesSum(entry, CopiedRows(ts, oldYear));
    var nets := NetLines(ts, oldYear, entry);
    var copies := CopyLines(ts, oldYear, entry);
    var b := ResultBalance(ts, oldYear);
    if b.Some? {
      var line := ResultLine(entry, oldYear, b.value);
      SumAppend(nets + copies, [line], Balance);
      SumAppend(nets, copies, Balance);
      SumSingle(line, Balance);
      SumAppend(rows + CopiedRows(ts, oldYear), ResultRows(ts, oldYear), Balance);
      SumAppend(rows, CopiedRows(ts, oldYear), Balance);
    }
  }

  /**
   * Nothing guards against a second run: when the new entry is not in the old
   * year, running the command again creates the same lines once more, on a second
   * entry.
   */
  lemma SecondRunRepeats(ts: seq<Transaction>, oldYear: Year, first: Entry, second: Entry)
    requires first.year != oldYear.id
    ensures CarriedLines(ts + CarriedLines(ts, oldYear, first), oldYear, second)
         == CarriedLines(ts, oldYear, second)
  {
    var lines := CarriedLines(ts, oldYear, first);
    forall l | l in lines
      ensures !Netted(oldYear, l) && !Copied(oldYear, l) && !InResult(oldYear, l)
    {
      var k :| 0 <= k < |lines| && lines[k] == l;
    }
    WhereAppend(ts, lines, (t: Transaction) => Netted(oldYear, t));
    WhereNone(lines, (t: Transaction) => Netted(oldYear, t));
    WhereAppend(ts, lines, (t: Transaction) => Copied(oldYear, t));
    WhereNone(lines, (t: Transaction) => Copied(oldYear, t));
    WhereAppend(ts, lines, (t: Transaction) => InResult(oldYear, t));
    WhereNone(lines, (t: Transaction) => InResult(oldYear, t));
    assert NettedRows(ts, oldYear) + [] == NettedRows(ts, oldYear);
    assert CopiedRows(ts, oldYear) + [] == CopiedRows(ts, oldYear);
    assert ResultRows(ts, oldYear) + [] == ResultRows(ts, oldYear);
  }

  // ---------------------------------------------------------------------------
  // Two worked cases

  /** Revenue 1000.00 on 7010000 and expense 400.00 on 6010000 close as one 600.00 profit line on 1200000. */
  lemma ProfitScenario()
    ensures var y := Year(1, "2019", Date(2019, 1, 1));
      var old1 := Entry(10, 1, Date(2019, 5, 2), "vente", "VT", false);
      var sale := Transaction(old1, "7010000", None, None, "vente", 0, 100000, None, None);
      var purchase := Transaction(old1, "6010000", None, None, "achat", 40000, 0, None, None);
      var e := NewEntry(20, Year(2, "2020", Date(2020, 1, 1)));
      var lines := CarriedLines([sale, purchase], y, e);
      |lines| == 1 && lines[0].account == "1200000" && lines[0].revenue == 60000 && lines[0].expense == 0
  {
    var y := Year(1, "2019", Date(2019, 1, 1));
    var old1 := Entry(10, 1, Date(2019, 5, 2), "vente", "VT", false);
    var sale := Transaction(old1, "7010000", None, None, "vente", 0, 100000, None, None);
    var purchase := Transaction(old1, "6010000", None, None, "achat", 40000, 0, None, None);
    var e := NewEntry(20, Year(2, "2020", Date(2020, 1, 1)));
    assert !Netted(y, sale) && !Netted(y, purchase) && !Copied(y, sale) && !Copied(y, purchase);
    WhereNone([sale, purchase], (t: Transaction) => Netted(y, t));
    WhereNone([sale, purchase], (t: Transaction) => Copied(y, t));
    assert [sale, purchase] == [sale] + [purchase];
    assert [sale] == [] + [sale];
    assert InResult(y, sale) && InResult(y, purchase);
    WhereKeep([], sale, (t: Transaction) => InResult(y, t));
    WhereKeep([sale], purchase, (t: Transaction) => InResult(y, t));
    assert ResultRows([sale, purchase], y) == [sale, purchase];
    SumAppend([sale], [purchase], Balance);
    SumSingle(sale, Balance);
    SumSingle(purchase, Balance);
    assert ResultBalance([sale, purchase], y) == Some(60000);
    assert NetLines([sale, purchase], y, e) == [];
    assert CopyLines([sale, purchase], y, e) == [];
  }

  /** Two unlettered lines of third party X001 on 4010000 are carried as two lines, not one. */
  lemma ThirdPartyScenario()
    ensures var y := Year(1, "2019", Date(2019, 1, 1));
      var old1 := Entry(10, 1, Date(2019, 5, 2), "facture", "AC", false);
      var a := Transaction(old1, "4010000", Some("X001"), None, "facture 1", 0, 15000, None, None);
      var b := Transaction(old1, "4010000", Some("X001"), None, "facture 2", 0, 7500, None, None);
      var copies := CopyLines([a, b], y, NewEntry(20, Year(2, "2020", Date(2020, 1, 1))));
      |copies| == 2 && copies[0].thirdparty == Some("X001") && copies[1].thirdparty == Some("X001")
      && copies[0].revenue == 15000 && copies[1].revenue == 7500
  {
    var y := Year(1, "2019", Date(2019, 1, 1));
    var old1 := Entry(10, 1, Date(2019, 5, 2), "facture", "AC", false);
    var a := Transaction(old1, "4010000", Some("X001"), None, "facture 1", 0, 15000, None, None);
    var b := Transaction(old1, "4010000", Some("X001"), None, "facture 2", 0, 7500, None, None);
    assert [a, b] == [a] + [b];
    assert [a] == [] + [a];
    assert Copied(y, a) && Copied(y, b);
    WhereKeep([], a, (t: Transaction) => Copied(y, t));
    WhereKeep([a], b, (t: Transaction) => Copied(y, t));
    assert CopiedRows([a, b], y) == [a, b];
  }
}
