/** The sales page: the date / status / search filter over the sale list,
    the figures above it, and the rule that approve and dispute buttons are
    shown only on pending sales. */
module SalesView {
  import opened Seqs
  import opened Domain
  import Text
  import StoreOps

  /** The `status` string a sale carries. */
  function StatusName(s: SaleStatus): string
  {
    match s
    case Pending => "pending"
    case Approved => "approved"
    case Disputed => "disputed"
  }

  // ---------------------------------------------------------------------
  // The filter

  /** The start of the "week" window: seven days before local midnight. */
  function WeekAgo(now: int): int
  {
    Midnight(now) - 7 * DAY_MS
  }

  /** The start of the "month" window: thirty days before local midnight. */
  function MonthAgo(now: int): int
  {
    Midnight(now) - 30 * DAY_MS
  }

  /** "today", "week" and "month" keep the sales made at or after their
      window's start; any other value keeps every sale. */
  predicate MatchesDate(s: Sale, dateFilter: string, now: int)
  {
    if dateFilter == "today" then s.createdAt >= Midnight(now)
    else if dateFilter == "week" then s.createdAt >= WeekAgo(now)
    else if dateFilter == "month" then s.createdAt >= MonthAgo(now)
    else true
  }

  predicate MatchesStatus(s: Sale, statusFilter: string)
  {
    statusFilter == "all" || StatusName(s.status) == statusFilter
  }

  predicate ItemMatches(item: SaleItem, searchQuery: string)
  {
    Text.IncludesIgnoringCase(item.productName, searchQuery)
  }

  /** The rep's name, or the product name of some line item, contains the query. */
  predicate MatchesSearch(s: Sale, searchQuery: string)
  {
    || Text.IncludesIgnoringCase(s.salesRepName, searchQuery)
    || exists i :: 0 <= i < |s.items| && ItemMatches(s.items[i], searchQuery)
  }

  predicate SaleMatches(s: Sale, searchQuery: string, statusFilter: string, dateFilter: string, now: int)
  {
    MatchesDate(s, dateFilter, now) && MatchesStatus(s, statusFilter) && MatchesSearch(s, searchQuery)
  }

  function FilteredSales(sales: seq<Sale>, searchQuery: string, statusFilter: string,
                         dateFilter: string, now: int): seq<Sale>
  {
    Filter(sales, (s: Sale) => SaleMatches(s, searchQuery, statusFilter, dateFilter, now))
  }

  /** The listed sales are exactly those passing all three tests, in the
      store's order. */
  lemma FilteredSalesExactly(sales: seq<Sale>, searchQuery: string, statusFilter: string,
                             dateFilter: string, now: int)
    ensures var r := FilteredSales(sales, searchQuery, statusFilter, dateFilter, now);
            && IsSubsequence(r, sales)
            && (forall i :: 0 <= i < |r| ==> r[i] in sales && SaleMatches(r[i], searchQuery, statusFilter, dateFilter, now))
            && (forall k :: 0 <= k < |sales| && SaleMatches(sales[k], searchQuery, statusFilter, dateFilter, now) ==>
                  sales[k] in r)
  {
  }

  /** Each status value keeps exactly the sales in that status. */
  lemma StatusFilterMeaning(s: Sale)
    ensures MatchesStatus(s, "all")
    ensures MatchesStatus(s, "pending") <==> s.status == Pending
    ensures MatchesStatus(s, "approved") <==> s.status == Approved
    ensures MatchesStatus(s, "disputed") <==> s.status == Disputed
  {
  }

  /** An empty query matches every sale, with or without line items. */
  lemma EmptySearchMatchesAll(s: Sale)
    ensures MatchesSearch(s, "")
  {
    Text.IncludesEmpty(Text.Lower(s.salesRepName));
  }

  /** A sale matches on one of its line items even when the rep's name does not. */
  lemma ItemNameMatches(s: Sale, searchQuery: string, k: nat)
    requires k < |s.items|
    requires Text.Includes(Text.Lower(s.items[k].productName), Text.Lower(searchQuery))
    ensures MatchesSearch(s, searchQuery)
  {
    assert ItemMatches(s.items[k], searchQuery);
  }

  /** Today's window lies inside the week's, the week's inside the month's,
      and the month's inside "all". */
  lemma DateWindowsNest(s: Sale, now: int)
    ensures MatchesDate(s, "today", now) ==> MatchesDate(s, "week", now)
    ensures MatchesDate(s, "week", now) ==> MatchesDate(s, "month", now)
    ensures MatchesDate(s, "month", now) ==> MatchesDate(s, "all", now)
  {
  }

  /** With the same query and status, the lists for "today", "week", "month"
      and "all" are each an order-preserving part of the next. */
  lemma {:induction false} DateFiltersNest(sales: seq<Sale>, searchQuery: string, statusFilter: string, now: int)
    ensures IsSubsequence(FilteredSales(sales, searchQuery, statusFilter, "today", now),
                          FilteredSales(sales, searchQuery, statusFilter, "week", now))
    ensures IsSubsequence(FilteredSales(sales, searchQuery, statusFilter, "week", now),
                          FilteredSales(sales, searchQuery, statusFilter, "month", now))
    ensures IsSubsequence(FilteredSales(sales, searchQuery, statusFilter, "month", now),
                          FilteredSales(sales, searchQuery, statusFilter, "all", now))
  {
    var today := (s: Sale) => SaleMatches(s, searchQuery, statusFilter, "today", now);
    var week := (s: Sale) => SaleMatches(s, searchQuery, statusFilter, "week", now);
    var month := (s: Sale) => SaleMatches(s, searchQuery, statusFilter, "month", now);
    var all := (s: Sale) => SaleMatches(s, searchQuery, statusFilter, "all", now);
    FilterMonotone(sales, today, week);
    FilterMonotone(sales, week, month);
    FilterMonotone(sales, month, all);
  }

  /** A sale made today passes the "today" window; one that passes it and is
      not later than now was made today. */
  lemma TodayWindowIsToday(s: Sale, now: int)
    ensures SameDay(s, now) ==> MatchesDate(s, "today", now)
    ensures MatchesDate(s, "today", now) && s.createdAt <= now ==> SameDay(s, now)
  {
    SameDayIsTodayWindow(s.createdAt, now);
  }

  // ---------------------------------------------------------------------
  // The figures above the list

  function TodayTotal(sales: seq<Sale>, now: int): int
  {
    Sum(TodaySales(sales, now), TotalAmount)
  }

  function PendingCount(sales: seq<Sale>): nat
  {
    Count(sales, IsPending)
  }

  function ApprovedToday(sales: seq<Sale>, now: int): nat
  {
    Count(TodaySales(sales, now), IsApproved)
  }

  /** Today's total counts disputed sales too: it is the counted total plus
      the disputed total of the day. */
  lemma TodayTotalIncludesDisputed(sales: seq<Sale>, now: int)
    ensures TodayTotal(sales, now)
            == Sum(Filter(TodaySales(sales, now), NotDisputed), TotalAmount)
               + Sum(Filter(TodaySales(sales, now), (s: Sale) => s.status == Disputed), TotalAmount)
  {
    SumPartition(TodaySales(sales, now), NotDisputed, (s: Sale) => s.status == Disputed, TotalAmount);
  }

  /** The pending count is over all time, so it is at least the number pending
      today; the approved count is over today only. */
  lemma StatsBounds(sales: seq<Sale>, now: int)
    ensures Count(TodaySales(sales, now), IsPending) <= PendingCount(sales)
    ensures ApprovedToday(sales, now) <= |TodaySales(sales, now)| <= |sales|
  {
    var today := TodaySales(sales, now);
    FilterFilter(sales, SameDayAs(now), IsPending, (s: Sale) => SameDay(s, now) && IsPending(s));
    FilterMonotone(sales, (s: Sale) => SameDay(s, now) && IsPending(s), IsPending);
    SubsequenceLength(Filter(sales, (s: Sale) => SameDay(s, now) && IsPending(s)), Filter(sales, IsPending));
  }

  // ---------------------------------------------------------------------
  // Row actions

  /** Approve and dispute buttons are rendered only for a pending sale. */
  predicate ActionsOffered(s: Sale)
  {
    s.status == Pending
  }

  /** After a dispute the sale no longer offers either action, so from the
      page a sale is disputed (and restocked) at most once, and never after
      approval. */
  lemma DisputeClosesActions(st: StoreOps.StoreState, saleId: string, stamp: string, now: int)
    ensures var after := StoreOps.DisputeSale(st, saleId, stamp, now);
            forall i :: 0 <= i < |after.sales| && after.sales[i].id == saleId ==> !ActionsOffered(after.sales[i])
  {
    if StoreOps.FindSale(st.sales, saleId).None? {
      assert forall i :: 0 <= i < |st.sales| ==> st.sales[i].id != saleId;
    }
  }

  /** The same holds after an approval, which applies whether or not the sale exists. */
  lemma ApproveClosesActions(st: StoreOps.StoreState, saleId: string, stamp: string, now: int)
    ensures var after := StoreOps.ApproveSale(st, saleId, stamp, now);
            forall i :: 0 <= i < |after.sales| && after.sales[i].id == saleId ==> !ActionsOffered(after.sales[i])
  {
  }
}
