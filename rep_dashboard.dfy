/** The rep's home page: their own sales, today's figures and the short
    low-stock list. */
module RepDashboard {
  import opened Seqs
  import opened Domain

  function ByRep(repId: string): Sale -> bool
  {
    (s: Sale) => s.salesRepId == repId
  }

  /** The signed-in rep's sales; nobody signed in, no sales. */
  function MySales(sales: seq<Sale>, user: Option<SalesRep>): seq<Sale>
  {
    if user.Some? then Filter(sales, ByRep(user.value.id)) else []
  }

  function MyTodaySales(sales: seq<Sale>, user: Option<SalesRep>, now: int): seq<Sale>
  {
    TodaySales(MySales(sales, user), now)
  }

  /** Today's own takings, pending and disputed sales included. */
  function TodayTotal(sales: seq<Sale>, user: Option<SalesRep>, now: int): int
  {
    Sum(MyTodaySales(sales, user, now), TotalAmount)
  }

  function PendingCount(sales: seq<Sale>, user: Option<SalesRep>, now: int): nat
  {
    Count(MyTodaySales(sales, user, now), IsPending)
  }

  function ApprovedCount(sales: seq<Sale>, user: Option<SalesRep>, now: int): nat
  {
    Count(MyTodaySales(sales, user, now), IsApproved)
  }

  /** The rep's sales are exactly those carrying their id, in order, and there
      are none without a user. */
  lemma MySalesExactly(sales: seq<Sale>, user: Option<SalesRep>)
    ensures user.None? ==> MySales(sales, user) == []
    ensures user.Some? ==>
              var mine := MySales(sales, user);
              && IsSubsequence(mine, sales)
              && (forall i :: 0 <= i < |mine| ==> mine[i] in sales && mine[i].salesRepId == user.value.id)
              && (forall k :: 0 <= k < |sales| && sales[k].salesRepId == user.value.id ==> sales[k] in mine)
  {
  }

  /** Today's list holds exactly the rep's own sales made today. */
  lemma MyTodaySalesExactly(sales: seq<Sale>, user: SalesRep, now: int)
    ensures var today := MyTodaySales(sales, Some(user), now);
            && (forall i :: 0 <= i < |today| ==>
                  today[i] in sales && today[i].salesRepId == user.id && SameDay(today[i], now))
            && (forall k :: 0 <= k < |sales| && sales[k].salesRepId == user.id && SameDay(sales[k], now) ==>
                  sales[k] in today)
  {
    var mine := MySales(sales, Some(user));
    forall k | 0 <= k < |sales| && sales[k].salesRepId == user.id && SameDay(sales[k], now)
      ensures sales[k] in MyTodaySales(sales, Some(user), now)
    {
      var j :| 0 <= j < |mine| && mine[j] == sales[k];
      assert SameDayAs(now)(mine[j]);
    }
  }

  /** One more sale raises today's own takings by its amount, whatever its
      status, exactly when it is the rep's and from today. */
  lemma TodayTotalSnoc(sales: seq<Sale>, user: SalesRep, s: Sale, now: int)
    ensures s.salesRepId == user.id && SameDay(s, now) ==>
              TodayTotal(sales + [s], Some(user), now) == TodayTotal(sales, Some(user), now) + s.totalAmount
    ensures !(s.salesRepId == user.id && SameDay(s, now)) ==>
              TodayTotal(sales + [s], Some(user), now) == TodayTotal(sales, Some(user), now)
  {
    var mine := MySales(sales, Some(user));
    FilterSnoc(sales, s, ByRep(user.id));
    FilterSnoc(mine, s, SameDayAs(now));
    if s.salesRepId == user.id && SameDay(s, now) {
      SumSnoc(TodaySales(mine, now), s, TotalAmount);
    }
  }

  /** Pending and approved never overlap, so together they are at most today's sales. */
  lemma PendingAndApprovedWithinToday(sales: seq<Sale>, user: Option<SalesRep>, now: int)
    ensures PendingCount(sales, user, now) + ApprovedCount(sales, user, now) <= |MyTodaySales(sales, user, now)|
  {
    CountDisjoint(MyTodaySales(sales, user, now), IsPending, IsApproved);
  }

  /** The alert card lists at most five products, the first five low on stock. */
  function LowStockAlertList(products: seq<Product>): (shown: seq<Product>)
    ensures |shown| <= 5 && |shown| <= |LowStockProducts(products)|
    ensures |shown| == if |LowStockProducts(products)| < 5 then |LowStockProducts(products)| else 5
    ensures shown == LowStockProducts(products)[..|shown|]
    ensures |LowStockProducts(products)| <= 5 ==> shown == LowStockProducts(products)
    ensures forall i :: 0 <= i < |shown| ==> shown[i] in products && shown[i].quantity <= shown[i].lowStockThreshold
  {
    Prefix(LowStockProducts(products), 5)
  }
}
