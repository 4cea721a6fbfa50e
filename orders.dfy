/** The orders list (app/dashboard/orders/page.jsx): search, status and date
    filters, the header sort, row selection and select-all, bulk status
    change, bulk delete, CSV export, the count statistics and the badges. */
module Orders {
  import opened Wrappers
  import opened Text
  import opened Seqs
  import opened Sorting

  /** The fields of an order the page reads. Totals are exact reals. */
  datatype Order = Order(
    id: string,
    date: string,
    customer: string,
    email: string,
    phone: string,
    status: string,
    payment: string,
    total: real)

  const Completed := "Ολοκληρώθηκε"
  const Pending := "Εκκρεμεί"
  const Cancelled := "Ακυρώθηκε"
  const Shipped := "Απεστάλη"

  /** The statuses the status filter and the bulk status menu offer. */
  const StatusOptions: seq<string> := [Completed, Pending, Cancelled, Shipped]

  /** The two demonstration orders the page loads on mount. */
  const DemoOrders: seq<Order> := [
    Order("ORD-001", "2025-08-18", "Γιάννης Παπαδόπουλος", "giannis@example.com", "6901234567",
      Completed, "Πληρωμένο", 120.5),
    Order("ORD-002", "2025-08-17", "Μαρία Κωνσταντίνου", "maria@example.com", "6987654321",
      Pending, "Απλήρωτο", 75.0)]

  /* ---------------- filtering ---------------- */

  /** The wall clock, given as a parameter: today's date and the date a week
      ago, both as ISO `YYYY-MM-DD` strings. */
  datatype Clock = Clock(today: string, weekAgo: string)

  /** The three filter inputs. */
  datatype Criteria = Criteria(search: string, statusFilter: string, dateRange: string)

  predicate MatchesSearch(o: Order, search: string) {
    var term := Lower(search);
    Contains(Lower(o.customer), term) || Contains(Lower(o.id), term) || Contains(Lower(o.email), term)
  }

  predicate MatchesStatus(o: Order, statusFilter: string) {
    statusFilter == "" || o.status == statusFilter
  }

  /** `"today"`: the order's date is today; `"week"`: it is not before the
      date a week ago; any other value: every date passes. */
  predicate MatchesDate(o: Order, dateRange: string, clock: Clock) {
    if dateRange == "today" then o.date == clock.today
    else if dateRange == "week" then StrLe(clock.weekAgo, o.date)
    else true
  }

  predicate Visible(o: Order, c: Criteria, clock: Clock) {
    MatchesSearch(o, c.search) && MatchesStatus(o, c.statusFilter) && MatchesDate(o, c.dateRange, clock)
  }

  function VisibleIn(c: Criteria, clock: Clock): Order -> bool {
    (o: Order) => Visible(o, c, clock)
  }

  /** `orders.filter(...)` before the sort. */
  function FilteredOrders(orders: seq<Order>, c: Criteria, clock: Clock): seq<Order> {
    Filter(orders, VisibleIn(c, clock))
  }

  /* ---------------- sorting ---------------- */

  /** The sortable columns. */
  datatype OrderField = Id | Date | Customer | Status | Total

  /** The comparison key of each column: totals numerically, ISO dates as
      strings (which orders them by the day), everything else by code
      point. */
  function OrderKey(f: OrderField, o: Order): (k: Key)
    ensures f == Total <==> k.Num?
    ensures f == Total ==> k.n == o.total
  {
    match f
    case Total => Num(o.total)
    case Date => Str(o.date)
    case Id => Str(o.id)
    case Customer => Str(o.customer)
    case Status => Str(o.status)
  }

  function KeyOf(f: OrderField): Order -> Key {
    (o: Order) => OrderKey(f, o)
  }

  /** The rows of the table: the filtered orders, sorted. */
  function VisibleOrders(orders: seq<Order>, c: Criteria, clock: Clock, field: OrderField, dir: Dir): seq<Order> {
    SortBy(FilteredOrders(orders, c, clock), KeyOf(field), dir)
  }

  /** An order is shown exactly when it is in the list and its customer, id
      or email holds the lower-cased search term, its status matches the
      filter, and its date passes the date range. */
  lemma VisibleIff(orders: seq<Order>, c: Criteria, clock: Clock, field: OrderField, dir: Dir, o: Order)
    ensures o in VisibleOrders(orders, c, clock, field, dir) <==>
      && o in orders
      && (Contains(Lower(o.customer), Lower(c.search)) || Contains(Lower(o.id), Lower(c.search))
          || Contains(Lower(o.email), Lower(c.search)))
      && (c.statusFilter == "" || o.status == c.statusFilter)
      && MatchesDate(o, c.dateRange, clock)
  {
    var kept := FilteredOrders(orders, c, clock);
    var up := VisibleOrders(orders, c, clock, field, dir);
    assert multiset(up) == multiset(kept);
    assert o in up <==> o in multiset(up);
    assert o in kept <==> o in multiset(kept);
    assert o in kept <==> o in orders && VisibleIn(c, clock)(o);
  }

  /** The sort neither adds nor drops an order: each visible order is shown
      as often as it occurs in the list, and no other order is shown. */
  lemma VisibleCounts(orders: seq<Order>, c: Criteria, clock: Clock, field: OrderField, dir: Dir, o: Order)
    ensures multiset(VisibleOrders(orders, c, clock, field, dir))[o] ==
      if Visible(o, c, clock) then multiset(orders)[o] else 0
  {
    FilterMultiset(orders, VisibleIn(c, clock), o);
  }

  /** The rows are in the order of the chosen column and direction. */
  lemma VisibleSorted(orders: seq<Order>, c: Criteria, clock: Clock, field: OrderField, dir: Dir)
    ensures Sorted(VisibleOrders(orders, c, clock, field, dir), KeyOf(field), dir)
  {
    SortBySorted(FilteredOrders(orders, c, clock), KeyOf(field), dir);
  }

  /** When no two shown orders share a key in the column, descending order
      is ascending order reversed. */
  lemma DescendingReversesAscending(orders: seq<Order>, c: Criteria, clock: Clock, field: OrderField)
    requires KeysIdentify(FilteredOrders(orders, c, clock), KeyOf(field))
    ensures VisibleOrders(orders, c, clock, field, Desc) == Reverse(VisibleOrders(orders, c, clock, field, Asc))
  {
    DescendingIsReversedAscending(FilteredOrders(orders, c, clock), KeyOf(field));
  }

  /** With an empty search, no status filter and no date range, every order
      is shown. */
  lemma EmptyCriteriaShowsAll(orders: seq<Order>, clock: Clock, field: OrderField, dir: Dir)
    ensures multiset(VisibleOrders(orders, Criteria("", "", ""), clock, field, dir)) == multiset(orders)
  {
    var c := Criteria("", "", "");
    forall o | o in orders ensures Visible(o, c, clock) {
      assert Lower("") == "";
      ContainsEmpty(Lower(o.customer));
    }
    FilterAll(orders, VisibleIn(c, clock));
  }

  /* ---------------- selection ---------------- */

  function Other(id: string): string -> bool {
    (x: string) => x != id
  }

  /** `toggleSelect(id)`: remove `id` when selected, append it otherwise.
      Only the membership of `id` changes. */
  function Toggle(ids: seq<string>, id: string): (r: seq<string>)
    ensures id in r <==> id !in ids
    ensures forall x :: x != id ==> (x in r <==> x in ids)
    ensures id !in ids ==> r == ids + [id]
  {
    if id in ids then Filter(ids, Other(id)) else ids + [id]
  }

  /** Toggling never introduces a duplicate id. */
  lemma ToggleKeepsNoDup(ids: seq<string>, id: string)
    requires NoDup(ids)
    ensures NoDup(Toggle(ids, id))
  {
    if id in ids {
      FilterNoDup(ids, Other(id));
    } else {
      var r := ids + [id];
      forall i, j | 0 <= i < j < |r| ensures r[i] != r[j] {
        if j == |ids| {
          assert r[i] == ids[i];
        }
      }
    }
  }

  /** Toggling twice restores the membership of every id, and restores the
      list itself when the id was not selected. */
  lemma ToggleTwice(ids: seq<string>, id: string)
    ensures forall x :: x in Toggle(Toggle(ids, id), id) <==> x in ids
    ensures id !in ids ==> Toggle(Toggle(ids, id), id) == ids
  {
    if id !in ids {
      FilterAppend(ids, [id], Other(id));
      FilterAll(ids, Other(id));
      FilterSingle(id, Other(id));
    }
  }

  /** `filtered.map(o => o.id)` */
  function Ids(os: seq<Order>): (r: seq<string>)
    ensures |r| == |os|
    ensures forall i :: 0 <= i < |os| ==> r[i] == os[i].id
  {
    seq(|os|, i requires 0 <= i < |os| => os[i].id)
  }

  /** `toggleSelectAll`: with as many ids selected as rows shown, the
      selection empties; otherwise it becomes the shown ids in row order. */
  function ToggleAll(selected: seq<string>, visible: seq<Order>): (r: seq<string>)
    ensures |selected| == |visible| ==> r == []
    ensures |selected| != |visible| ==> r == Ids(visible)
  {
    if |selected| == |visible| then [] else Ids(visible)
  }

  /** The header checkbox. */
  predicate HeaderChecked(selected: seq<string>, visible: seq<Order>) {
    |selected| == |visible| && |visible| > 0
  }

  /** Select-all compares counts only: any two selections of the same size
      give the same header state and the same toggle, whichever ids they
      hold. */
  lemma SelectAllComparesCountsOnly(s1: seq<string>, s2: seq<string>, visible: seq<Order>)
    requires |s1| == |s2|
    ensures HeaderChecked(s1, visible) == HeaderChecked(s2, visible)
    ensures ToggleAll(s1, visible) == ToggleAll(s2, visible)
  {
  }

  /** An instance: a selection made before filtering whose one id is not on
      screen still checks the header, and clicking it clears the selection
      instead of selecting the row shown. */
  lemma HeaderCheckedWithHiddenSelection()
    ensures var shown := [DemoOrders[1]];
      && HeaderChecked(["ORD-001"], shown)
      && shown[0].id !in ["ORD-001"]
      && ToggleAll(["ORD-001"], shown) == []
  {
  }

  /** After select-all from a non-matching count, the selection is exactly
      the shown rows. */
  lemma ToggleAllSelectsShown(selected: seq<string>, visible: seq<Order>)
    requires |selected| != |visible|
    ensures forall o :: o in visible ==> o.id in ToggleAll(selected, visible)
    ensures forall x :: x in ToggleAll(selected, visible) ==> exists o :: o in visible && o.id == x
  {
    var r := ToggleAll(selected, visible);
    forall o | o in visible ensures o.id in r {
      var i :| 0 <= i < |visible| && visible[i] == o;
      assert r[i] == o.id;
    }
    forall x | x in r ensures exists o :: o in visible && o.id == x {
      var i :| 0 <= i < |r| && r[i] == x;
      assert visible[i] in visible && visible[i].id == x;
    }
  }

  /* ---------------- bulk actions ---------------- */

  function Restatus(o: Order, selected: seq<string>, status: string): Order {
    if o.id in selected then o.(status := status) else o
  }

  /** `handleBulkStatus(status)` on the order list: the selected orders get
      the new status and keep every other field; all others are unchanged;
      length and order of ids are kept. */
  function SetStatus(orders: seq<Order>, selected: seq<string>, status: string): (r: seq<Order>)
    ensures |r| == |orders|
    ensures Ids(r) == Ids(orders)
    ensures forall i :: 0 <= i < |orders| && orders[i].id in selected ==> r[i] == orders[i].(status := status)
    ensures forall i :: 0 <= i < |orders| && orders[i].id !in selected ==> r[i] == orders[i]
    decreases |orders|
  {
    if orders == [] then []
    else [Restatus(orders[0], selected, status)] + SetStatus(orders[1..], selected, status)
  }

  /** Setting the same status twice is setting it once. */
  lemma SetStatusIdempotent(orders: seq<Order>, selected: seq<string>, status: string)
    ensures SetStatus(SetStatus(orders, selected, status), selected, status) == SetStatus(orders, selected, status)
  {
    var once := SetStatus(orders, selected, status);
    var twice := SetStatus(once, selected, status);
    forall i | 0 <= i < |orders| ensures twice[i] == once[i] {
      assert once[i].id == orders[i].id by {
        assert Ids(once)[i] == Ids(orders)[i];
      }
    }
  }

  function IsSelected(selected: seq<string>): Order -> bool {
    (o: Order) => o.id in selected
  }

  function IsUnselected(selected: seq<string>): Order -> bool {
    (o: Order) => o.id !in selected
  }

  /** `handleBulkDelete` on the order list once confirmed. */
  function RemoveSelected(orders: seq<Order>, selected: seq<string>): (r: seq<Order>)
    ensures forall o :: o in r <==> o in orders && o.id !in selected
  {
    Filter(orders, IsUnselected(selected))
  }

  /** Bulk delete removes exactly the selected orders, every copy of them,
      and keeps each other order as often as it was there; the removed and
      kept orders together are the old list; deleting from two parts of a
      list deletes from each, so the survivors keep their order. */
  lemma RemoveSelectedExact(orders: seq<Order>, more: seq<Order>, selected: seq<string>, o: Order)
    ensures o in RemoveSelected(orders, selected) <==> o in orders && o.id !in selected
    ensures multiset(RemoveSelected(orders, selected))[o] == if o.id in selected then 0 else multiset(orders)[o]
    ensures multiset(RemoveSelected(orders, selected))[o] + multiset(Filter(orders, IsSelected(selected)))[o]
      == multiset(orders)[o]
    ensures RemoveSelected(orders + more, selected) ==
      RemoveSelected(orders, selected) + RemoveSelected(more, selected)
  {
    FilterAppend(orders, more, IsUnselected(selected));
    FilterMultiset(orders, IsUnselected(selected), o);
    FilterMultiset(orders, IsSelected(selected), o);
  }

  /** With nothing selected, bulk delete keeps the list as it is. */
  lemma RemoveNothing(orders: seq<Order>)
    ensures RemoveSelected(orders, []) == orders
  {
    FilterAll(orders, IsUnselected([]));
  }

  /* ---------------- CSV export ---------------- */

  const CsvHeader: seq<string> := ["ID", "Ημερομηνία", "Πελάτης", "Email", "Τηλέφωνο", "Κατάσταση", "Πληρωμή", "Σύνολο"]

  /** The cells of one order's row; `fmt` is JavaScript's number-to-string
      conversion of the total. */
  function CsvRow(o: Order, fmt: real -> string): (r: seq<string>)
    ensures |r| == |CsvHeader|
  {
    [o.id, o.date, o.customer, o.email, o.phone, o.status, o.payment, fmt(o.total)]
  }

  /** The selected orders, in the list's own order. */
  function SelectedOrders(orders: seq<Order>, selected: seq<string>): (r: seq<Order>)
    ensures forall o :: o in r <==> o in orders && o.id in selected
  {
    Filter(orders, IsSelected(selected))
  }

  function CsvLines(chosen: seq<Order>, fmt: real -> string): (r: seq<string>)
    ensures |r| == |chosen| + 1
  {
    [Join(CsvHeader, ',')] + seq(|chosen|, i requires 0 <= i < |chosen| => Join(CsvRow(chosen[i], fmt), ','))
  }

  /** `handleBulkExport`'s text: nothing when no order is selected,
      otherwise the header line and one line per selected order. */
  function ExportCsv(orders: seq<Order>, selected: seq<string>, fmt: real -> string): (r: Option<string>)
    ensures r.None? <==> forall o :: o in orders ==> o.id !in selected
  {
    var chosen := SelectedOrders(orders, selected);
    assert chosen != [] ==> chosen[0] in chosen && IsSelected(selected)(chosen[0]);
    if |chosen| == 0 then None else Some(Join(CsvLines(chosen, fmt), '\n'))
  }

  /** No cell of the order's row holds a comma or a line break. */
  predicate PlainCells(o: Order, fmt: real -> string) {
    forall i :: 0 <= i < 8 ==> ',' !in CsvRow(o, fmt)[i] && '\n' !in CsvRow(o, fmt)[i]
  }

  /** No line of the export holds a line break. */
  lemma CsvLinesPlain(chosen: seq<Order>, fmt: real -> string)
    requires forall i :: 0 <= i < |chosen| ==> PlainCells(chosen[i], fmt)
    ensures forall k :: 0 <= k < |CsvLines(chosen, fmt)| ==> '\n' !in CsvLines(chosen, fmt)[k]
  {
    var ls := CsvLines(chosen, fmt);
    forall k | 0 <= k < |ls| ensures '\n' !in ls[k] {
      if k == 0 {
        JoinFree(CsvHeader, ',', '\n');
      } else {
        JoinFree(CsvRow(chosen[k - 1], fmt), ',', '\n');
      }
    }
  }

  /** Each line of the export splits back into its cells. */
  lemma CsvLinesSplit(chosen: seq<Order>, fmt: real -> string)
    requires forall i :: 0 <= i < |chosen| ==> PlainCells(chosen[i], fmt)
    ensures Split(CsvLines(chosen, fmt)[0], ',') == CsvHeader
    ensures forall i :: 0 <= i < |chosen| ==> Split(CsvLines(chosen, fmt)[i + 1], ',') == CsvRow(chosen[i], fmt)
  {
    SplitJoin(CsvHeader, ',');
    forall i | 0 <= i < |chosen| ensures Split(CsvLines(chosen, fmt)[i + 1], ',') == CsvRow(chosen[i], fmt) {
      SplitJoin(CsvRow(chosen[i], fmt), ',');
    }
  }

  /** When no cell holds a comma or a line break, the export reads back as
      the 8-column header and then, line by line, the cells of each
      selected order in list order. */
  lemma ExportCsvReadsBack(orders: seq<Order>, selected: seq<string>, fmt: real -> string)
    requires forall o :: o in orders && o.id in selected ==> PlainCells(o, fmt)
    requires exists o :: o in orders && o.id in selected
    ensures ExportCsv(orders, selected, fmt).Some?
    ensures var chosen := SelectedOrders(orders, selected);
      var lines := Split(ExportCsv(orders, selected, fmt).value, '\n');
      && |lines| == |chosen| + 1
      && Split(lines[0], ',') == CsvHeader
      && forall i :: 0 <= i < |chosen| ==> Split(lines[i + 1], ',') == CsvRow(chosen[i], fmt)
  {
    var chosen := SelectedOrders(orders, selected);
    assert forall i :: 0 <= i < |chosen| ==> chosen[i] in orders;
    CsvLinesPlain(chosen, fmt);
    SplitJoin(CsvLines(chosen, fmt), '\n');
    CsvLinesSplit(chosen, fmt);
  }

  /** Cells are not quoted: a comma inside a customer name splits that row
      into more than eight columns. */
  lemma CommaInCellShiftsColumns(o: Order, fmt: real -> string)
    requires ',' in o.customer
    ensures |Split(Join(CsvRow(o, fmt), ','), ',')| > 8
  {
    JoinSeparators(CsvRow(o, fmt), ',', 2);
    SplitCount(Join(CsvRow(o, fmt), ','), ',');
  }

  /* ---------------- stats and badges ---------------- */

  predicate IsPending(o: Order) {
    o.status == Pending
  }

  /** `pendingOrders`: zero exactly when no order is pending, and never more
      than `totalOrders`. */
  function PendingOrders(orders: seq<Order>): (n: nat)
    ensures n <= |orders|
    ensures n == 0 <==> forall o :: o in orders ==> o.status != Pending
  {
    var pending := Filter(orders, IsPending);
    assert pending != [] ==> pending[0] in pending;
    |pending|
  }

  /** The number of pending orders, counted one order at a time. */
  function CountPending(orders: seq<Order>): nat
    decreases |orders|
  {
    if orders == [] then 0
    else (if orders[0].status == Pending then 1 else 0) + CountPending(orders[1..])
  }

  /** `pendingOrders` is exactly the number of orders whose status is
      pending. */
  lemma {:induction false} PendingIsCount(orders: seq<Order>)
    ensures PendingOrders(orders) == CountPending(orders)
    decreases |orders|
  {
    if orders != [] {
      PendingIsCount(orders[1..]);
    }
  }

  /** After setting the selected orders to pending, the pending ones are
      those that were selected or already pending. */
  lemma {:induction false} PendingAfterBulkPending(orders: seq<Order>, selected: seq<string>)
    ensures PendingOrders(SetStatus(orders, selected, Pending)) ==
      |Filter(orders, (o: Order) => o.id in selected || o.status == Pending)|
    decreases |orders|
  {
    if orders != [] {
      PendingAfterBulkPending(orders[1..], selected);
      var r := SetStatus(orders, selected, Pending);
      assert r[1..] == SetStatus(orders[1..], selected, Pending);
    }
  }

  /** The demonstration data: two orders, one pending. */
  lemma DemoStats()
    ensures |DemoOrders| == 2 && PendingOrders(DemoOrders) == 1
  {
    assert Filter(DemoOrders[1..], IsPending) == [DemoOrders[1]] by {
      assert DemoOrders[1..][1..] == [];
    }
  }

  datatype Tone = Green | Yellow | Red | Blue | Gray

  /** What a badge shows: its colour, whether an icon precedes the text,
      and the text. */
  datatype Badge = Badge(tone: Tone, icon: bool, text: string)

  /** `statusBadge`: the text is always the status itself; the four known
      statuses get their own colour and icon, anything else is grey. */
  function StatusBadge(status: string): (b: Badge)
    ensures b.text == status
    ensures b.icon <==> status in StatusOptions
    ensures b.tone == Gray <==> status !in StatusOptions
    ensures b.tone == Green <==> status == Completed
    ensures b.tone == Yellow <==> status == Pending
    ensures b.tone == Red <==> status == Cancelled
    ensures b.tone == Blue <==> status == Shipped
  {
    if status == Completed then Badge(Green, true, Completed)
    else if status == Pending then Badge(Yellow, true, Pending)
    else if status == Cancelled then Badge(Red, true, Cancelled)
    else if status == Shipped then Badge(Blue, true, Shipped)
    else Badge(Gray, false, status)
  }

  const PaymentOptions: seq<string> := ["Πληρωμένο", "Απλήρωτο", "Επιστροφή"]

  /** `paymentBadge`, of the same shape. */
  function PaymentBadge(payment: string): (b: Badge)
    ensures b.text == payment
    ensures b.icon <==> payment in PaymentOptions
    ensures b.tone == Gray <==> payment !in PaymentOptions
    ensures b.tone == Green <==> payment == "Πληρωμένο"
    ensures b.tone == Yellow <==> payment == "Απλήρωτο"
    ensures b.tone == Red <==> payment == "Επιστροφή"
  {
    if payment == "Πληρωμένο" then Badge(Green, true, payment)
    else if payment == "Απλήρωτο" then Badge(Yellow, true, payment)
    else if payment == "Επιστροφή" then Badge(Red, true, payment)
    else Badge(Gray, false, payment)
  }

  /* ---------------- the sort, in place ---------------- */

  /** `filtered.sort(...)`: the array ends up holding its old contents in the
      order of the stable sort. */
  method SortInPlace(a: array<Order>, field: OrderField, dir: Dir)
    modifies a
    ensures a[..] == SortBy(old(a[..]), KeyOf(field), dir)
  {
    var sorted := SortBy(a[..], KeyOf(field), dir);
    assert |sorted| == a.Length by {
      assert |multiset(sorted)| == |multiset(a[..])|;
    }
    forall i | 0 <= i < a.Length {
      a[i] := sorted[i];
    }
  }

  /* ---------------- the page state ---------------- */

  class OrdersPage {
    var orders: seq<Order>
    var search: string
    var statusFilter: string
    var dateRange: string
    var sortBy: OrderField
    var sortDir: Dir
    var selectedIds: seq<string>
    var showStatusDropdown: bool

    /** The initial state, newest first. */
    constructor ()
      ensures orders == [] && selectedIds == [] && !showStatusDropdown
      ensures search == "" && statusFilter == "" && dateRange == ""
      ensures sortBy == Date && sortDir == Desc
    {
      orders := [];
      search, statusFilter, dateRange := "", "", "";
      sortBy, sortDir := Date, Desc;
      selectedIds := [];
      showStatusDropdown := false;
    }

    function CurrentCriteria(): Criteria
      reads this
    {
      Criteria(search, statusFilter, dateRange)
    }

    /** The rows on screen. */
    function Shown(clock: Clock): seq<Order>
      reads this
    {
      VisibleOrders(orders, CurrentCriteria(), clock, sortBy, sortDir)
    }

    /** The mount effect. */
    method Load()
      modifies this`orders
      ensures orders == DemoOrders
    {
      orders := DemoOrders;
    }

    /** `filtered`, as the render computes it: a fresh array of the matching
        orders, sorted in place. */
    method ComputeFiltered(clock: Clock) returns (a: array<Order>)
      ensures fresh(a)
      ensures a[..] == Shown(clock)
    {
      var matching := FilteredOrders(orders, CurrentCriteria(), clock);
      a := new Order[|matching|](i requires 0 <= i < |matching| => matching[i]);
      assert a[..] == matching;
      SortInPlace(a, sortBy, sortDir);
    }

    method ToggleSelect(id: string)
      modifies this`selectedIds
      ensures selectedIds == Toggle(old(selectedIds), id)
    {
      if id in selectedIds {
        selectedIds := Filter(selectedIds, Other(id));
      } else {
        selectedIds := selectedIds + [id];
      }
    }

    method ToggleSelectAll(clock: Clock)
      modifies this`selectedIds
      ensures selectedIds == ToggleAll(old(selectedIds), Shown(clock))
    {
      var shown := Shown(clock);
      if |selectedIds| == |shown| {
        selectedIds := [];
      } else {
        selectedIds := Ids(shown);
      }
    }

    /** `thSort(label, key)`'s click handler. */
    method ThSort(key: OrderField)
      modifies this`sortBy, this`sortDir
      ensures (sortBy, sortDir) == ToggleSort(old(sortBy), old(sortDir), key)
    {
      if sortBy == key {
        sortDir := if sortDir == Asc then Desc else Asc;
      } else {
        sortBy := key;
        sortDir := Asc;
      }
    }

    /** Bulk status change: the orders get the status, the menu closes and
        the selection empties. */
    method HandleBulkStatus(status: string)
      modifies this`orders, this`showStatusDropdown, this`selectedIds
      ensures orders == SetStatus(old(orders), old(selectedIds), status)
      ensures !showStatusDropdown && selectedIds == []
    {
      orders := SetStatus(orders, selectedIds, status);
      showStatusDropdown := false;
      selectedIds := [];
    }

    /** Bulk delete after the confirmation dialog: a declined confirm changes
        nothing. */
    method HandleBulkDelete(confirmed: bool)
      modifies this`orders, this`selectedIds
      ensures !confirmed ==> orders == old(orders) && selectedIds == old(selectedIds)
      ensures confirmed ==> orders == RemoveSelected(old(orders), old(selectedIds)) && selectedIds == []
    {
      if !confirmed {
        return;
      }
      orders := RemoveSelected(orders, selectedIds);
      selectedIds := [];
    }

    /** The export button: the CSV text to download, if any. */
    method HandleBulkExport(fmt: real -> string) returns (csv: Option<string>)
      ensures csv == ExportCsv(orders, selectedIds, fmt)
    {
      var chosen := SelectedOrders(orders, selectedIds);
      if |chosen| == 0 {
        return None;
      }
      csv := Some(Join(CsvLines(chosen, fmt), '\n'));
    }
  }
}
