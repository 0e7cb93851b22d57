/** The four stat cards of the owner's dashboard: product count, low stock,
    today's takings and total revenue, each with its secondary line. */
module DashboardStats {
  import opened Seqs
  import opened Domain

  function TotalProducts(products: seq<Product>): nat
  {
    |products|
  }

  /** The secondary line of the low-stock card: "All healthy", or the number
      of products with nothing left. */
  datatype LowStockNote = AllHealthy | OutOfStockNote(count: nat)

  function LowStockChange(products: seq<Product>): (note: LowStockNote)
    ensures note.AllHealthy? <==> LowStockCount(products) == 0
    ensures note.OutOfStockNote? ==> note.count == Count(products, IsOutOfStock)
  {
    if LowStockCount(products) > 0 then OutOfStockNote(OutOfStockCount(products)) else AllHealthy
  }

  /** The "in stock" and low-stock counts share out every product. */
  lemma StockCardsPartition(products: seq<Product>)
    ensures LowStockCount(products) + InStockCount(products) == TotalProducts(products)
  {
    LowAndInStockPartition(products);
  }

  /** With no negative thresholds the note never shows more products out of
      stock than the card counts as low. */
  lemma OutOfStockNoteWithinLowStock(products: seq<Product>)
    requires forall p :: p in products ==> p.lowStockThreshold >= 0
    ensures LowStockChange(products).OutOfStockNote? ==> LowStockChange(products).count <= LowStockCount(products)
    ensures LowStockCount(products) == 0 ==> OutOfStockCount(products) == 0
  {
    OutOfStockIsLowStock(products);
  }

  // ---------------------------------------------------------------------
  // Takings

  /** Made at or after local midnight. */
  predicate SinceMidnight(s: Sale, now: int)
  {
    s.createdAt >= Midnight(now)
  }

  predicate CountedToday(s: Sale, now: int)
  {
    SinceMidnight(s, now) && NotDisputed(s)
  }

  function CountedTodayAt(now: int): Sale -> bool
  {
    (s: Sale) => CountedToday(s, now)
  }

  function SinceMidnightAt(now: int): Sale -> bool
  {
    (s: Sale) => SinceMidnight(s, now)
  }

  function TodaySalesTotal(sales: seq<Sale>, now: int): int
  {
    Sum(Filter(sales, CountedTodayAt(now)), TotalAmount)
  }

  function TotalRevenue(sales: seq<Sale>): int
  {
    Sum(Filter(sales, NotDisputed), TotalAmount)
  }

  /** "n transactions": every sale since midnight, disputed ones included. */
  function TodayTransactions(sales: seq<Sale>, now: int): nat
  {
    Count(sales, SinceMidnightAt(now))
  }

  /** "n approved": over all time, not just today. */
  function ApprovedCount(sales: seq<Sale>): nat
  {
    Count(sales, IsApproved)
  }

  /** Revenue above a million is shown abbreviated with an "M". */
  predicate RevenueAbbreviated(totalRevenue: int)
  {
    totalRevenue >= 1000000
  }

  /** With no negative amounts, today's takings are part of the total revenue. */
  lemma TodayWithinRevenue(sales: seq<Sale>, now: int)
    requires forall s :: s in sales ==> s.totalAmount >= 0
    ensures 0 <= TodaySalesTotal(sales, now) <= TotalRevenue(sales)
  {
    SumFilterMonotone(sales, CountedTodayAt(now), NotDisputed, TotalAmount);
    SumNonNegative(Filter(sales, CountedTodayAt(now)), TotalAmount);
  }

  /** A sale disputed today adds a transaction but nothing to the takings. */
  lemma DisputedSaleCountsAsTransaction(sales: seq<Sale>, s: Sale, now: int)
    requires SinceMidnight(s, now) && s.status == Disputed
    ensures TodayTransactions(sales + [s], now) == TodayTransactions(sales, now) + 1
    ensures TodaySalesTotal(sales + [s], now) == TodaySalesTotal(sales, now)
    ensures TotalRevenue(sales + [s]) == TotalRevenue(sales)
  {
    assert [s][..0] == [];
    FilterAppend(sales, [s], SinceMidnightAt(now));
    FilterAppend(sales, [s], CountedTodayAt(now));
    FilterAppend(sales, [s], NotDisputed);
    assert Filter([s], CountedTodayAt(now)) == [];
    assert Filter([s], NotDisputed) == [];
  }

  /** An approved sale from an earlier day still raises the approved count. */
  lemma ApprovedCountIsAllTime(sales: seq<Sale>, s: Sale, now: int)
    requires s.status == Approved && !SinceMidnight(s, now)
    ensures ApprovedCount(sales + [s]) == ApprovedCount(sales) + 1
    ensures TodayTransactions(sales + [s], now) == TodayTransactions(sales, now)
  {
    assert [s][..0] == [];
    FilterAppend(sales, [s], IsApproved);
    FilterAppend(sales, [s], SinceMidnightAt(now));
  }
}
