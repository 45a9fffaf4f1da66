/**
 * The `convert` command, which copies the legacy Bécours groups into the
 * booking tables: one booking per group, one booking line per headcount, a
 * line for the additional cost when there is one, and one payment for the
 * whole cost. A legacy group is taken with the fields the command reads; the
 * key of a created booking is its position in the booking table.
 */
module Convert {

  import opened Common
  import opened Calendar
  import opened BookingModels

  /** `join(a, b)`: the two names separated by a space when both are given. */
  function JoinNames(a: string, b: string): (r: string)
    ensures a != "" && b != "" ==> r == a + " " + b
    ensures a == "" || b == "" ==> r == a + b
  {
    a + (if a != "" && b != "" then " " else "") + b
  }

  /** When the first name has no space, the full name splits back at its first space. */
  lemma JoinNamesSplits(a: string, b: string)
    requires a != "" && b != "" && ' ' !in a
    ensures var r := JoinNames(a, b);
      && r[|a|] == ' ' && (forall k :: 0 <= k < |a| ==> r[k] != ' ')
      && r[..|a|] == a && r[|a| + 1..] == b
  {
    var r := JoinNames(a, b);
    assert r == a + " " + b;
    assert forall k :: 0 <= k < |a| ==> r[k] == a[k];
  }

  datatype LegacyHeadcount = LegacyHeadcount(number: nat, begin: Date, end: Date, comfort: int, cost: Option<int>)

  datatype LegacyGroup = LegacyGroup(
    kind: int, name: string, firstname: string, lastname: string, email: string, tel: string,
    comments: string, invoice: string, invoiceNumber: string,
    coopCost: Option<int>, additionalCost: Option<int>, cost: int, end: Option<Date>,
    headcounts: seq<LegacyHeadcount>)

  /** A booking as the command creates it; `state` is the title of its state. */
  datatype NewBooking = NewBooking(
    title: string, contact: string, email: string, tel: string, orgType: int, state: string,
    description: string, invoice: string, invoiceNumber: string)

  datatype LinkedItem = LinkedItem(booking: nat, item: BookingItem)

  datatype LinkedPayment = LinkedPayment(booking: nat, payment: Payment)

  /** `bool(x)` of a nullable amount. */
  predicate Truth(x: Option<int>) {
    x.Some? && x.value != 0
  }

  /** Legacy types 1 and 2 are kept, any other becomes 5 ("Particulier"). */
  function OrgType(kind: int): (t: int)
    ensures kind < 3 ==> t == kind
    ensures kind >= 3 ==> t == 5
  {
    if kind < 3 then kind else 5
  }

  const PaidState := "Payé"

  /** The payment date of a group without an end date. */
  const DefaultPaymentDate := Date(2016, 12, 31)

  function BookingOf(g: LegacyGroup): NewBooking {
    NewBooking(g.name, JoinNames(g.firstname, g.lastname), g.email, g.tel, OrgType(g.kind), PaidState,
      g.comments, g.invoice, g.invoiceNumber)
  }

  /** The line for a headcount: its people, dates and comfort, priced per overnight. */
  function ItemOf(h: LegacyHeadcount, coop: bool): BookingItem {
    BookingItem(Some(h.number), Some(h.begin), Some(h.end), h.comfort, h.cost, None, None, None, coop)
  }

  /** The line for the additional cost: product 3, a lump price. */
  function ExtraItem(g: LegacyGroup): BookingItem {
    BookingItem(None, None, None, 3, None, None, None, g.additionalCost, Truth(g.coopCost))
  }

  function PaymentOf(g: LegacyGroup): Payment {
    Payment(1, if g.end.Some? then g.end.value else DefaultPaymentDate, g.cost)
  }

  /** A converted headcount costs its overnights at the headcount's price, plus the fee when the group paid one. */
  lemma ItemOfAmount(h: LegacyHeadcount, coop: bool)
    ensures var i := ItemOf(h, coop);
      var overnights := (Ordinal(h.end) - Ordinal(h.begin)) * h.number;
      && ItemOvernights(i) == Some(overnights)
      && ItemAmount(i) == Coalesce(h.cost, 0) * overnights + (if coop then 100 * overnights else 0)
  {
    var i := ItemOf(h, coop);
    var n := Ordinal(h.end) - Ordinal(h.begin);
    if h.cost.Some? {
      assert PppnTerm(i) == Some(n * h.number * h.cost.value);
      assert n * h.number * h.cost.value == h.cost.value * (n * h.number);
    }
  }

  /** The extra line's amount is the additional cost, plus nothing else. */
  lemma ExtraItemAmount(g: LegacyGroup)
    ensures ItemAmount(ExtraItem(g)) == Coalesce(g.additionalCost, 0)
  {
  }

  function HeadcountItems(id: nat, hs: seq<LegacyHeadcount>, coop: bool): (r: seq<LinkedItem>)
    ensures |r| == |hs|
    ensures forall k :: 0 <= k < |hs| ==> r[k] == LinkedItem(id, ItemOf(hs[k], coop))
  {
    if hs == [] then [] else HeadcountItems(id, hs[..|hs| - 1], coop) + [LinkedItem(id, ItemOf(hs[|hs| - 1], coop))]
  }

  /** The lines of one group: its headcounts, then the additional cost if any. */
  function GroupItems(id: nat, g: LegacyGroup): seq<LinkedItem> {
    HeadcountItems(id, g.headcounts, Truth(g.coopCost))
      + (if Truth(g.additionalCost) then [LinkedItem(id, ExtraItem(g))] else [])
  }

  datatype Converted = Converted(bookings: seq<NewBooking>, items: seq<LinkedItem>, payments: seq<LinkedPayment>)

  /** What one group adds to the tables. */
  function ConvertGroup(st: Converted, g: LegacyGroup): Converted {
    var id := |st.bookings|;
    Converted(st.bookings + [BookingOf(g)], st.items + GroupItems(id, g), st.payments + [LinkedPayment(id, PaymentOf(g))])
  }

  function ConvertGroups(st: Converted, groups: seq<LegacyGroup>): Converted {
    if groups == [] then st else ConvertGroup(ConvertGroups(st, groups[..|groups| - 1]), groups[|groups| - 1])
  }

  /** The items linked to a booking, in table order. */
  function ItemsOf(items: seq<LinkedItem>, id: nat): seq<LinkedItem> {
    if items == [] then []
    else ItemsOf(items[..|items| - 1], id) + (if items[|items| - 1].booking == id then [items[|items| - 1]] else [])
  }

  /** Every link of the tables points at an existing booking. */
  predicate Linked(st: Converted) {
    && (forall k :: 0 <= k < |st.items| ==> st.items[k].booking < |st.bookings|)
    && (forall k :: 0 <= k < |st.payments| ==> st.payments[k].booking < |st.bookings|)
  }

  /**
   * The n-th group becomes the n-th new booking, with the n-th new payment, and
   * earlier rows stay; links keep pointing at existing bookings.
   */
  lemma {:induction false} ConvertShape(st: Converted, groups: seq<LegacyGroup>)
    requires Linked(st)
    ensures var r := ConvertGroups(st, groups);
      && Linked(r)
      && |r.bookings| == |st.bookings| + |groups| && |r.payments| == |st.payments| + |groups|
      && r.bookings[..|st.bookings|] == st.bookings && r.payments[..|st.payments|] == st.payments
      && |st.items| <= |r.items| && r.items[..|st.items|] == st.items
      && (forall j :: 0 <= j < |groups| ==>
            && r.bookings[|st.bookings| + j] == BookingOf(groups[j])
            && r.payments[|st.payments| + j] == LinkedPayment(|st.bookings| + j, PaymentOf(groups[j])))
  {
    if groups != [] {
      var init := groups[..|groups| - 1];
      var g := groups[|groups| - 1];
      ConvertShape(st, init);
      var p := ConvertGroups(st, init);
      var r := ConvertGroups(st, groups);
      assert r == ConvertGroup(p, g);
      ConvertGroupShape(p, g);
      assert r.bookings[..|st.bookings|] == p.bookings[..|st.bookings|];
      assert r.payments[..|st.payments|] == p.payments[..|st.payments|];
      assert r.items[..|st.items|] == p.items[..|st.items|];
      forall j | 0 <= j < |groups|
        ensures r.bookings[|st.bookings| + j] == BookingOf(groups[j])
        ensures r.payments[|st.payments| + j] == LinkedPayment(|st.bookings| + j, PaymentOf(groups[j]))
      {
        if j < |init| {
          assert groups[j] == init[j];
          assert r.bookings[|st.bookings| + j] == p.bookings[|st.bookings| + j];
          assert r.payments[|st.payments| + j] == p.payments[|st.payments| + j];
        }
      }
    }
  }

  /** One group appends its booking and its payment, keeps the earlier rows and the links. */
  lemma ConvertGroupShape(st: Converted, g: LegacyGroup)
    requires Linked(st)
    ensures var r := ConvertGroup(st, g);
      && Linked(r)
      && |r.bookings| == |st.bookings| + 1 && |r.payments| == |st.payments| + 1
      && r.bookings[..|st.bookings|] == st.bookings && r.payments[..|st.payments|] == st.payments
      && |st.items| <= |r.items| && r.items[..|st.items|] == st.items
      && r.bookings[|st.bookings|] == BookingOf(g)
      && r.payments[|st.payments|] == LinkedPayment(|st.bookings|, PaymentOf(g))
  {
    var r := ConvertGroup(st, g);
    var added := GroupItems(|st.bookings|, g);
    GroupItemsLinked(|st.bookings|, g);
    assert r.items == st.items + added;
    forall k | 0 <= k < |r.items|
      ensures r.items[k].booking < |r.bookings|
    {
      if k >= |st.items| {
        assert r.items[k] == added[k - |st.items|];
      }
    }
  }

  /** The lines of each group in turn, the first group's booking being number `next`. */
  function Blocks(next: nat, groups: seq<LegacyGroup>): (r: seq<seq<LinkedItem>>)
    ensures |r| == |groups|
    ensures forall i :: 0 <= i < |groups| ==> r[i] == GroupItems(next + i, groups[i])
  {
    if groups == [] then [] else Blocks(next, groups[..|groups| - 1]) + [GroupItems(next + |groups| - 1, groups[|groups| - 1])]
  }

  /** The blocks one after the other. */
  function Concat(blocks: seq<seq<LinkedItem>>): seq<LinkedItem> {
    if blocks == [] then [] else Concat(blocks[..|blocks| - 1]) + blocks[|blocks| - 1]
  }

  /** The items that converting `groups` appends. */
  function ItemsAfter(next: nat, groups: seq<LegacyGroup>): seq<LinkedItem> {
    Concat(Blocks(next, groups))
  }

  /** Converting groups appends their items after the existing ones. */
  lemma {:induction false} ConvertGroupsItems(st: Converted, groups: seq<LegacyGroup>)
    ensures ConvertGroups(st, groups).items == st.items + ItemsAfter(|st.bookings|, groups)
    ensures |ConvertGroups(st, groups).bookings| == |st.bookings| + |groups|
  {
    if groups != [] {
      ConvertGroupsItems(st, groups[..|groups| - 1]);
      ConvertGroupStep(st, groups, ConvertGroups(st, groups[..|groups| - 1]));
    }
  }

  /** Once the first groups are converted, one more group appends its block to the items. */
  lemma ConvertGroupStep(st: Converted, groups: seq<LegacyGroup>, mid: Converted)
    requires groups != [] && mid == ConvertGroups(st, groups[..|groups| - 1])
    requires mid.items == st.items + ItemsAfter(|st.bookings|, groups[..|groups| - 1])
    requires |mid.bookings| == |st.bookings| + |groups| - 1
    ensures ConvertGroups(st, groups).items == st.items + ItemsAfter(|st.bookings|, groups)
    ensures |ConvertGroups(st, groups).bookings| == |st.bookings| + |groups|
  {
    var n := |st.bookings|;
    var id := |mid.bookings|;
    var block := GroupItems(id, groups[|groups| - 1]);
    var full := ConvertGroups(st, groups);
    assert full == ConvertGroup(mid, groups[|groups| - 1]);
    ItemsAfterSnoc(n, groups, id);
    AppendChain(st.items, ItemsAfter(n, groups[..|groups| - 1]), block, mid.items, full.items, ItemsAfter(n, groups));
  }

  /** s + a followed by b is s followed by a + b. */
  lemma AppendChain(s: seq<LinkedItem>, a: seq<LinkedItem>, b: seq<LinkedItem>,
                    m: seq<LinkedItem>, f: seq<LinkedItem>, w: seq<LinkedItem>)
    requires m == s + a && f == m + b && w == a + b
    ensures f == s + w
  {
  }

  /** One more group appends its block, linked to booking `id`, to the items. */
  lemma ItemsAfterSnoc(next: nat, groups: seq<LegacyGroup>, id: nat)
    requires groups != [] && id == next + |groups| - 1
    ensures ItemsAfter(next, groups) == ItemsAfter(next, groups[..|groups| - 1]) + GroupItems(id, groups[|groups| - 1])
  {
    var bs := Blocks(next, groups);
    assert bs[..|bs| - 1] == Blocks(next, groups[..|groups| - 1]);
  }

  /** Block i links every one of its items to booking next + i. */
  predicate BlocksLinked(blocks: seq<seq<LinkedItem>>, next: nat) {
    forall i, k :: 0 <= i < |blocks| && 0 <= k < |blocks[i]| ==> blocks[i][k].booking == next + i
  }

  /** The items of linked blocks point at bookings next to next + |blocks| - 1. */
  lemma {:induction false} ConcatLinked(blocks: seq<seq<LinkedItem>>, next: nat)
    requires BlocksLinked(blocks, next)
    ensures forall k :: 0 <= k < |Concat(blocks)| ==> next <= Concat(blocks)[k].booking < next + |blocks|
  {
    if blocks != [] {
      var init := blocks[..|blocks| - 1];
      ConcatLinked(init, next);
    }
  }

  /** Among linked blocks, the items of booking next + j are block j. */
  lemma {:induction false} ConcatItemsOf(blocks: seq<seq<LinkedItem>>, next: nat, j: nat)
    requires BlocksLinked(blocks, next) && j < |blocks|
    ensures ItemsOf(Concat(blocks), next + j) == blocks[j]
  {
    if j == |blocks| - 1 {
      LastBlockItems(blocks, next);
    } else {
      var init := blocks[..|blocks| - 1];
      assert BlocksLinked(init, next);
      ConcatItemsOf(init, next, j);
      EarlierBlockItems(blocks, next, j);
    }
  }

  /** The items of the last block's booking are that block. */
  lemma LastBlockItems(blocks: seq<seq<LinkedItem>>, next: nat)
    requires BlocksLinked(blocks, next) && blocks != []
    ensures ItemsOf(Concat(blocks), next + |blocks| - 1) == blocks[|blocks| - 1]
  {
    var init := blocks[..|blocks| - 1];
    var last := blocks[|blocks| - 1];
    var id := next + |blocks| - 1;
    assert BlocksLinked(init, next);
    ConcatLinked(init, next);
    calc {
      ItemsOf(Concat(blocks), id);
      ItemsOf(Concat(init) + last, id);
      { ItemsOfAppend(Concat(init), last, id); }
      ItemsOf(Concat(init), id) + ItemsOf(last, id);
      { ItemsOfNone(Concat(init), id); }
      [] + ItemsOf(last, id);
      { ItemsOfAll(last, id); }
      last;
    }
  }

  /** The last block leaves the items of earlier bookings as they were. */
  lemma EarlierBlockItems(blocks: seq<seq<LinkedItem>>, next: nat, j: nat)
    requires BlocksLinked(blocks, next) && j < |blocks| - 1
    ensures ItemsOf(Concat(blocks), next + j) == ItemsOf(Concat(blocks[..|blocks| - 1]), next + j)
  {
    var init := blocks[..|blocks| - 1];
    var last := blocks[|blocks| - 1];
    var id := next + j;
    ItemsOfAppend(Concat(init), last, id);
    ItemsOfNone(last, id);
    assert ItemsOf(Concat(init), id) + [] == ItemsOf(Concat(init), id);
  }

  /** Among the appended items, those of the j-th new booking are the j-th group's. */
  lemma ItemsAfterOf(next: nat, groups: seq<LegacyGroup>, j: nat)
    requires j < |groups|
    ensures ItemsOf(ItemsAfter(next, groups), next + j) == GroupItems(next + j, groups[j])
  {
    var bs: seq<seq<LinkedItem>> := Blocks(next, groups);
    forall i: nat, k: nat | 0 <= i < |bs| && 0 <= k < |bs[i]|
      ensures bs[i][k].booking == next + i
    {
      GroupItemsLinked(next + i, groups[i]);
    }
    ConcatItemsOf(bs, next, j);
  }

  /**
   * The items of the n-th new booking are its group's headcounts, in order,
   * followed by the additional-cost line when the group had one.
   */
  lemma {:induction false} ConvertItems(st: Converted, groups: seq<LegacyGroup>, j: nat)
    requires Linked(st) && j < |groups|
    ensures ItemsOf(ConvertGroups(st, groups).items, |st.bookings| + j) == GroupItems(|st.bookings| + j, groups[j])
  {
    var id := |st.bookings| + j;
    calc {
      ItemsOf(ConvertGroups(st, groups).items, id);
      { NewBookingItems(st, groups, id); }
      ItemsOf(ItemsAfter(|st.bookings|, groups), id);
      { ItemsAfterOf(|st.bookings|, groups, j); }
      GroupItems(id, groups[j]);
    }
  }

  /** A new booking has no items among the existing rows, only among the appended ones. */
  lemma NewBookingItems(st: Converted, groups: seq<LegacyGroup>, id: nat)
    requires Linked(st) && id >= |st.bookings|
    ensures ItemsOf(ConvertGroups(st, groups).items, id) == ItemsOf(ItemsAfter(|st.bookings|, groups), id)
  {
    var added := ItemsAfter(|st.bookings|, groups);
    calc {
      ItemsOf(ConvertGroups(st, groups).items, id);
      == { ConvertGroupsItems(st, groups); }
      ItemsOf(st.items + added, id);
      == { ItemsOfAppend(st.items, added, id); }
      ItemsOf(st.items, id) + ItemsOf(added, id);
      == { ItemsOfNone(st.items, id); }
      [] + ItemsOf(added, id);
      ItemsOf(added, id);
    }
  }

  lemma GroupItemsLinked(id: nat, g: LegacyGroup)
    ensures forall k :: 0 <= k < |GroupItems(id, g)| ==> GroupItems(id, g)[k].booking == id
  {
  }

  lemma {:induction false} ItemsOfAppend(a: seq<LinkedItem>, b: seq<LinkedItem>, id: nat)
    ensures ItemsOf(a + b, id) == ItemsOf(a, id) + ItemsOf(b, id)
  {
    if b == [] {
      assert a + b == a;
    } else {
      var init := b[..|b| - 1];
      assert (a + b)[..|a + b| - 1] == a + init;
      ItemsOfAppend(a, init, id);
    }
  }

  lemma {:induction false} ItemsOfNone(items: seq<LinkedItem>, id: nat)
    requires forall k :: 0 <= k < |items| ==> items[k].booking != id
    ensures ItemsOf(items, id) == []
  {
    if items != [] {
      ItemsOfNone(items[..|items| - 1], id);
    }
  }

  lemma {:induction false} ItemsOfAll(items: seq<LinkedItem>, id: nat)
    requires forall k :: 0 <= k < |items| ==> items[k].booking == id
    ensures ItemsOf(items, id) == items
  {
    if items != [] {
      ItemsOfAll(items[..|items| - 1], id);
    }
  }

  /** The tables of the booking application. */
  class Database {
    var bookings: seq<NewBooking>
    var items: seq<LinkedItem>
    var payments: seq<LinkedPayment>

    constructor()
      ensures bookings == [] && items == [] && payments == []
    {
      bookings := [];
      items := [];
      payments := [];
    }

    /** The loop over a group's headcounts. */
    method CreateItems(id: nat, hs: seq<LegacyHeadcount>, coop: bool)
      modifies this
      ensures items == old(items) + HeadcountItems(id, hs, coop)
      ensures bookings == old(bookings) && payments == old(payments)
    {
      var i := 0;
      while i < |hs|
        invariant i <= |hs|
        invariant items == old(items) + HeadcountItems(id, hs[..i], coop)
        invariant bookings == old(bookings) && payments == old(payments)
      {
        assert hs[..i + 1][..i] == hs[..i];
        items := items + [LinkedItem(id, ItemOf(hs[i], coop))];
        i := i + 1;
      }
      assert hs[..i] == hs;
    }

    /** `Command.handle`. */
    method Convert(groups: seq<LegacyGroup>)
      modifies this
      ensures Converted(bookings, items, payments) == ConvertGroups(Converted(old(bookings), old(items), old(payments)), groups)
    {
      ghost var start := Converted(bookings, items, payments);
      var i := 0;
      while i < |groups|
        invariant i <= |groups|
        invariant Converted(bookings, items, payments) == ConvertGroups(start, groups[..i])
      {
        assert groups[..i + 1][..i] == groups[..i];
        var g := groups[i];
        ghost var next := ConvertGroup(Converted(bookings, items, payments), g);
        assert ConvertGroups(start, groups[..i + 1]) == next;
        var id := |bookings|;
        bookings := bookings + [BookingOf(g)];
        CreateItems(id, g.headcounts, Truth(g.coopCost));
        if Truth(g.additionalCost) {
          items := items + [LinkedItem(id, ExtraItem(g))];
        }
        assert items == next.items;
        payments := payments + [LinkedPayment(id, PaymentOf(g))];
        i := i + 1;
      }
      assert groups[..i] == groups;
    }
  }
}
