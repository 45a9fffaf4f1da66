/**
 * The data steps of two migrations of the accounting app. Migration 0021 fills
 * the new PurchaseInvoice and ThirdPartyAccount tables from the entries and
 * accounts that fit them; migration 0054 sorts the 2019 entries that touch a
 * class 5 (financial) account into cashings, incomes and expenditures.
 *
 * A subtype row (multi-table inheritance) shares its parent's primary key and
 * copies all of the parent's fields, so each subtype table is modelled as a map
 * from the parent's id to the parent row.
 */
module Migrations {

  import opened Common
  import opened Text
  import opened Ledger

  /** An account row of the schema these migrations run on. */
  datatype Account = Account(id: nat, number: string, title: string)

  function EntryId(e: Entry): nat {
    e.id
  }

  function AccountId(a: Account): nat {
    a.id
  }

  /** Primary keys are unique. */
  predicate UniqueIds<T(!new)>(s: seq<T>, id: T -> nat) {
    forall i, j :: 0 <= i < j < |s| ==> id(s[i]) != id(s[j])
  }

  /** The table after saving each row of `s`, in order, under its primary key. */
  function IndexBy<T(!new)>(s: seq<T>, id: T -> nat): map<nat, T> {
    if s == [] then map[] else IndexBy(s[..|s| - 1], id)[id(s[|s| - 1]) := s[|s| - 1]]
  }

  /** The keys of the table are the keys of the saved rows. */
  lemma {:induction false} IndexByKeys<T(!new)>(s: seq<T>, id: T -> nat)
    ensures forall k :: k in IndexBy(s, id) <==> exists x :: x in s && id(x) == k
  {
    if s != [] {
      IndexByKeys(s[..|s| - 1], id);
      assert forall y :: y in s <==> y in s[..|s| - 1] || y == s[|s| - 1];
    }
  }

  lemma IndexBySnoc<T(!new)>(s: seq<T>, x: T, id: T -> nat)
    ensures IndexBy(s + [x], id) == IndexBy(s, id)[id(x) := x]
  {
    assert (s + [x])[..|s|] == s;
  }

  /** Saving a row after a merge is saving it into the merged-in table. */
  lemma MergeThenSave<T>(m: map<nat, T>, n: map<nat, T>, k: nat, v: T)
    ensures (m + n)[k := v] == m + n[k := v]
  {
  }

  /**
   * Saving the rows satisfying p into an empty table: a row of `s` is stored iff
   * it satisfies p, and it is stored as itself.
   */
  lemma {:induction false} IndexedWhere<T(!new)>(s: seq<T>, id: T -> nat, p: T -> bool)
    requires UniqueIds(s, id)
    ensures forall x :: x in s ==> (id(x) in IndexBy(Where(s, p), id) <==> p(x))
    ensures forall x :: x in s && p(x) ==> IndexBy(Where(s, p), id)[id(x)] == x
  {
    forall x | x in s
      ensures id(x) in IndexBy(Where(s, p), id) <==> p(x)
      ensures p(x) ==> IndexBy(Where(s, p), id)[id(x)] == x
    {
      IndexedWhereAt(s, id, p, x);
    }
  }

  lemma {:induction false} IndexedWhereAt<T(!new)>(s: seq<T>, id: T -> nat, p: T -> bool, x: T)
    requires UniqueIds(s, id) && x in s
    ensures id(x) in IndexBy(Where(s, p), id) <==> p(x)
    ensures p(x) ==> IndexBy(Where(s, p), id)[id(x)] == x
  {
    var init, last := s[..|s| - 1], s[|s| - 1];
    assert Where(s, p) == Where(init, p) + (if p(last) then [last] else []);
    if p(last) {
      IndexBySnoc(Where(init, p), last, id);
    } else {
      assert Where(s, p) == Where(init, p);
    }
    if x == last {
      LastIdFresh(s, id, p);
    } else {
      InitIdDiffers(s, id, x);
      IndexedWhereAt(init, id, p, x);
    }
  }

  /** The last row's key is not among the keys saved before it. */
  lemma LastIdFresh<T(!new)>(s: seq<T>, id: T -> nat, p: T -> bool)
    requires UniqueIds(s, id) && s != []
    ensures id(s[|s| - 1]) !in IndexBy(Where(s[..|s| - 1], p), id)
  {
    IndexByKeys(Where(s[..|s| - 1], p), id);
  }

  lemma InitIdDiffers<T(!new)>(s: seq<T>, id: T -> nat, x: T)
    requires UniqueIds(s, id) && x in s && x != s[|s| - 1]
    ensures x in s[..|s| - 1] && id(x) != id(s[|s| - 1])
    ensures UniqueIds(s[..|s| - 1], id)
  {
    var i :| 0 <= i < |s| && s[i] == x;
    assert i < |s| - 1;
    assert s[..|s| - 1][i] == x;
  }

  // ----- Migration 0021 -----

  /** The entry has a line on an account whose number starts with `prefix` (one join of `transaction`). */
  predicate OnAccount(e: Entry, ts: seq<Transaction>, prefix: string) {
    exists t :: t in ts && t.entry.id == e.id && StartsWith(t.account, prefix)
  }

  /**
   * A 2019 entry with a line on a class 6 account and a line on a 401 (supplier)
   * account. The two tests are separate `.filter()` calls, hence separate joins:
   * they may be met by two different lines.
   */
  predicate IsPurchaseInvoice(e: Entry, ts: seq<Transaction>) {
    e.date.year == 2019 && OnAccount(e, ts, "6") && OnAccount(e, ts, "401")
  }

  /** A class 4 account other than the 48 and 49 sub-classes. */
  predicate IsThirdPartyAccount(a: Account) {
    StartsWith(a.number, "4") && !StartsWith(a.number, "48") && !StartsWith(a.number, "49")
  }

  function PurchaseInvoiceRows(entries: seq<Entry>, ts: seq<Transaction>): seq<Entry> {
    Where(entries, (e: Entry) => IsPurchaseInvoice(e, ts))
  }

  function ThirdPartyRows(accounts: seq<Account>): seq<Account> {
    Where(accounts, (a: Account) => IsThirdPartyAccount(a))
  }

  lemma PurchaseInvoiceRowsSnoc(entries: seq<Entry>, e: Entry, ts: seq<Transaction>)
    ensures PurchaseInvoiceRows(entries + [e], ts)
      == PurchaseInvoiceRows(entries, ts) + (if IsPurchaseInvoice(e, ts) then [e] else [])
  {
    assert (entries + [e])[..|entries|] == entries;
  }

  lemma ThirdPartyRowsSnoc(accounts: seq<Account>, a: Account)
    ensures ThirdPartyRows(accounts + [a]) == ThirdPartyRows(accounts) + (if IsThirdPartyAccount(a) then [a] else [])
  {
    assert (accounts + [a])[..|accounts|] == accounts;
  }

  /** The tables migration 0021 reads and the two subtype tables it fills. */
  class InvoiceTables {
    const entries: seq<Entry>
    const transactions: seq<Transaction>
    const accounts: seq<Account>
    var purchaseInvoices: map<nat, Entry>
    var thirdPartyAccounts: map<nat, Account>

    /** The state right after the schema step: both new tables are empty. */
    constructor(entries: seq<Entry>, transactions: seq<Transaction>, accounts: seq<Account>)
      ensures this.entries == entries && this.transactions == transactions && this.accounts == accounts
      ensures purchaseInvoices == map[] && thirdPartyAccounts == map[]
    {
      this.entries := entries;
      this.transactions := transactions;
      this.accounts := accounts;
      purchaseInvoices := map[];
      thirdPartyAccounts := map[];
    }

    /** `create_purchase_invoices`: one PurchaseInvoice row per selected entry. */
    method CreatePurchaseInvoices()
      modifies this
      ensures purchaseInvoices == old(purchaseInvoices) + IndexBy(PurchaseInvoiceRows(entries, transactions), EntryId)
      ensures thirdPartyAccounts == old(thirdPartyAccounts)
    {
      var i := 0;
      while i < |entries|
        invariant i <= |entries|
        invariant purchaseInvoices == old(purchaseInvoices) + IndexBy(PurchaseInvoiceRows(entries[..i], transactions), EntryId)
        invariant thirdPartyAccounts == old(thirdPartyAccounts)
      {
        var e := entries[i];
        assert entries[..i + 1] == entries[..i] + [e];
        PurchaseInvoiceRowsSnoc(entries[..i], e, transactions);
        if IsPurchaseInvoice(e, transactions) {
          IndexBySnoc(PurchaseInvoiceRows(entries[..i], transactions), e, EntryId);
          MergeThenSave(old(purchaseInvoices), IndexBy(PurchaseInvoiceRows(entries[..i], transactions), EntryId), e.id, e);
          purchaseInvoices := purchaseInvoices[e.id := e];
        } else {
          assert PurchaseInvoiceRows(entries[..i + 1], transactions) == PurchaseInvoiceRows(entries[..i], transactions);
        }
        i := i + 1;
      }
      assert entries[..i] == entries;
    }

    /** `create_third_party_accounts`: one ThirdPartyAccount row per selected account. */
    method CreateThirdPartyAccounts()
      modifies this
      ensures thirdPartyAccounts == old(thirdPartyAccounts) + IndexBy(ThirdPartyRows(accounts), AccountId)
      ensures purchaseInvoices == old(purchaseInvoices)
    {
      var i := 0;
      while i < |accounts|
        invariant i <= |accounts|
        invariant thirdPartyAccounts == old(thirdPartyAccounts) + IndexBy(ThirdPartyRows(accounts[..i]), AccountId)
        invariant purchaseInvoices == old(purchaseInvoices)
      {
        var a := accounts[i];
        assert accounts[..i + 1] == accounts[..i] + [a];
        ThirdPartyRowsSnoc(accounts[..i], a);
        if IsThirdPartyAccount(a) {
          IndexBySnoc(ThirdPartyRows(accounts[..i]), a, AccountId);
          MergeThenSave(old(thirdPartyAccounts), IndexBy(ThirdPartyRows(accounts[..i]), AccountId), a.id, a);
          thirdPartyAccounts := thirdPartyAccounts[a.id := a];
        } else {
          assert ThirdPartyRows(accounts[..i + 1]) == ThirdPartyRows(accounts[..i]);
        }
        i := i + 1;
      }
      assert accounts[..i] == accounts;
    }
  }

  /**
   * Starting from the empty table, an entry becomes a purchase invoice iff it is
   * a 2019 entry with a class 6 line and a 401 line, and the invoice row carries
   * all of the entry's fields; nothing else is in the table.
   */
  lemma PurchaseInvoicesSelected(entries: seq<Entry>, ts: seq<Transaction>)
    requires UniqueIds(entries, EntryId)
    ensures var m := IndexBy(PurchaseInvoiceRows(entries, ts), EntryId);
      && (forall e :: e in entries ==> (e.id in m <==> IsPurchaseInvoice(e, ts)))
      && (forall e :: e in entries && IsPurchaseInvoice(e, ts) ==> m[e.id] == e)
      && (forall k :: k in m ==> exists e :: e in entries && e.id == k)
  {
    IndexedWhere(entries, EntryId, (e: Entry) => IsPurchaseInvoice(e, ts));
    IndexByKeys(PurchaseInvoiceRows(entries, ts), EntryId);
  }

  /**
   * Starting from the empty table, an account becomes a third-party account iff
   * its number starts with 4 but not with 48 or 49, with all its fields copied.
   */
  lemma ThirdPartyAccountsSelected(accounts: seq<Account>)
    requires UniqueIds(accounts, AccountId)
    ensures var m := IndexBy(ThirdPartyRows(accounts), AccountId);
      && (forall a :: a in accounts ==> (a.id in m <==> IsThirdPartyAccount(a)))
      && (forall a :: a in accounts && IsThirdPartyAccount(a) ==> m[a.id] == a)
      && (forall k :: k in m ==> exists a :: a in accounts && a.id == k)
  {
    IndexedWhere(accounts, AccountId, (a: Account) => IsThirdPartyAccount(a));
    IndexByKeys(ThirdPartyRows(accounts), AccountId);
  }

  // ----- Migration 0054 -----

  /** The bank and cash accounts whose receipts make an entry a cashing. */
  const CashingAccounts: set<string> := {"5112000", "5115000", "5170000"}

  /** A 2019 entry with at least one line on a class 5 account. */
  predicate Considered(e: Entry, ts: seq<Transaction>) {
    e.date.year == 2019 && OnAccount(e, ts, "5")
  }

  predicate HasCashingReceipt(e: Entry, ts: seq<Transaction>) {
    exists t :: t in ts && t.entry.id == e.id && t.account in CashingAccounts && t.revenue > 0
  }

  predicate HasFinancialDebit(e: Entry, ts: seq<Transaction>) {
    exists t :: t in ts && t.entry.id == e.id && StartsWith(t.account, "5") && t.expense > 0
  }

  datatype Kind = Cashing | Income | Expenditure

  /** The if / elif / else of `create_data`. */
  function Classify(e: Entry, ts: seq<Transaction>): Kind {
    if HasCashingReceipt(e, ts) then Cashing
    else if HasFinancialDebit(e, ts) then Income
    else Expenditure
  }

  /** The considered entries of kind k. */
  function KindRows(entries: seq<Entry>, ts: seq<Transaction>, k: Kind): seq<Entry> {
    Where(entries, (e: Entry) => Considered(e, ts) && Classify(e, ts) == k)
  }

  lemma KindRowsSnoc(entries: seq<Entry>, e: Entry, ts: seq<Transaction>, k: Kind)
    ensures KindRows(entries + [e], ts, k)
      == KindRows(entries, ts, k) + (if Considered(e, ts) && Classify(e, ts) == k then [e] else [])
  {
    assert (entries + [e])[..|entries|] == entries;
  }

  /** The three subtype tables of migration 0054. */
  datatype KindState = KindState(cashings: map<nat, Entry>, incomes: map<nat, Entry>, expenditures: map<nat, Entry>)

  /** One turn of the loop of `create_data`: a considered entry is saved in the table of its kind. */
  function SaveKind(st: KindState, e: Entry, ts: seq<Transaction>): KindState {
    if !Considered(e, ts) then st
    else
      match Classify(e, ts)
      case Cashing => st.(cashings := st.cashings[e.id := e])
      case Income => st.(incomes := st.incomes[e.id := e])
      case Expenditure => st.(expenditures := st.expenditures[e.id := e])
  }

  /** The loop of `create_data` over the entries, in order. */
  function SaveKinds(st: KindState, entries: seq<Entry>, ts: seq<Transaction>): KindState {
    if entries == [] then st else SaveKind(SaveKinds(st, entries[..|entries| - 1], ts), entries[|entries| - 1], ts)
  }

  /** The table of kind k of a state. */
  function TableOf(st: KindState, k: Kind): map<nat, Entry> {
    match k
    case Cashing => st.cashings
    case Income => st.incomes
    case Expenditure => st.expenditures
  }

  /**
   * After the loop, the table of each kind holds what it held before, merged with
   * the considered entries of that kind saved under their ids.
   */
  lemma {:induction false} SaveKindsTables(st: KindState, entries: seq<Entry>, ts: seq<Transaction>, k: Kind)
    ensures TableOf(SaveKinds(st, entries, ts), k) == TableOf(st, k) + IndexBy(KindRows(entries, ts, k), EntryId)
  {
    if entries != [] {
      var n := |entries| - 1;
      var e := entries[n];
      SaveKindsTables(st, entries[..n], ts, k);
      assert entries == entries[..n] + [e];
      KindRowsSnoc(entries[..n], e, ts, k);
      var m := TableOf(SaveKinds(st, entries[..n], ts), k);
      if Considered(e, ts) && Classify(e, ts) == k {
        IndexBySnoc(KindRows(entries[..n], ts, k), e, EntryId);
        MergeThenSave(TableOf(st, k), IndexBy(KindRows(entries[..n], ts, k), EntryId), e.id, e);
        assert TableOf(SaveKinds(st, entries, ts), k) == m[e.id := e];
      } else {
        assert KindRows(entries, ts, k) == KindRows(entries[..n], ts, k);
        assert TableOf(SaveKinds(st, entries, ts), k) == m;
      }
    }
  }

  /** The tables migration 0054 reads and the three subtype tables it fills. */
  class KindTables {
    const entries: seq<Entry>
    const transactions: seq<Transaction>
    var cashings: map<nat, Entry>
    var incomes: map<nat, Entry>
    var expenditures: map<nat, Entry>

    /** The state after migration 0053 created the three tables empty. */
    constructor(entries: seq<Entry>, transactions: seq<Transaction>)
      ensures this.entries == entries && this.transactions == transactions
      ensures cashings == map[] && incomes == map[] && expenditures == map[]
    {
      this.entries := entries;
      this.transactions := transactions;
      cashings := map[];
      incomes := map[];
      expenditures := map[];
    }

    /** `create_data`: each considered entry is saved as a row of the table of its kind. */
    method CreateData()
      modifies this
      ensures KindState(cashings, incomes, expenditures)
        == SaveKinds(KindState(old(cashings), old(incomes), old(expenditures)), entries, transactions)
    {
      ghost var start := KindState(cashings, incomes, expenditures);
      var i := 0;
      while i < |entries|
        invariant i <= |entries|
        invariant KindState(cashings, incomes, expenditures) == SaveKinds(start, entries[..i], transactions)
      {
        var e := entries[i];
        assert entries[..i + 1][..i] == entries[..i];
        if Considered(e, transactions) {
          var k := Classify(e, transactions);
          if k == Cashing {
            cashings := cashings[e.id := e];
          } else if k == Income {
            incomes := incomes[e.id := e];
          } else {
            expenditures := expenditures[e.id := e];
          }
        }
        i := i + 1;
      }
      assert entries[..i] == entries;
    }
  }

  /** From the empty tables, the table of kind k holds exactly the considered entries of that kind, as they were. */
  lemma KindRowsSelected(entries: seq<Entry>, ts: seq<Transaction>, k: Kind)
    requires UniqueIds(entries, EntryId)
    ensures var m := IndexBy(KindRows(entries, ts, k), EntryId);
      && (forall e :: e in entries ==> (e.id in m <==> Considered(e, ts) && Classify(e, ts) == k))
      && (forall e :: e in entries && Considered(e, ts) && Classify(e, ts) == k ==> m[e.id] == e)
  {
    IndexedWhere(entries, EntryId, (e: Entry) => Considered(e, ts) && Classify(e, ts) == k);
  }

  /**
   * After `create_data` on the empty tables, every considered entry is in exactly
   * one of the three tables, chosen by the first test it passes: a receipt on
   * 5112000, 5115000 or 5170000 makes a cashing, else a debit on a class 5
   * account makes an income, else an expenditure. Entries not considered are in
   * none of them.
   */
  lemma ExactlyOneKind(entries: seq<Entry>, ts: seq<Transaction>, e: Entry)
    requires UniqueIds(entries, EntryId) && e in entries
    ensures var r := SaveKinds(KindState(map[], map[], map[]), entries, ts);
      && (e.id in r.cashings <==> Considered(e, ts) && HasCashingReceipt(e, ts))
      && (e.id in r.incomes <==> Considered(e, ts) && !HasCashingReceipt(e, ts) && HasFinancialDebit(e, ts))
      && (e.id in r.expenditures <==> Considered(e, ts) && !HasCashingReceipt(e, ts) && !HasFinancialDebit(e, ts))
      && (Considered(e, ts) <==> e.id in r.cashings || e.id in r.incomes || e.id in r.expenditures)
      && (e.id in r.cashings ==> r.cashings[e.id] == e)
      && (e.id in r.incomes ==> r.incomes[e.id] == e)
      && (e.id in r.expenditures ==> r.expenditures[e.id] == e)
  {
    var empty := KindState(map[], map[], map[]);
    SaveKindsTables(empty, entries, ts, Cashing);
    SaveKindsTables(empty, entries, ts, Income);
    SaveKindsTables(empty, entries, ts, Expenditure);
    KindRowsSelected(entries, ts, Cashing);
    KindRowsSelected(entries, ts, Income);
    KindRowsSelected(entries, ts, Expenditure);
  }
}
