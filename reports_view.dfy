/** The reports page: the seven-day sales and profit series, the stock value
    per category, the per-rep bars, the headline totals and the week-over-week
    change. */
module ReportsView {
  import opened Seqs
  import opened Domain
  import InventoryView
  import Text
  import StoreOps

  // ---------------------------------------------------------------------
  // Profit of a sale, priced at the products' current cost

  /** A line item earns (unit price - current cost price) x quantity; an item
      whose product is gone earns nothing. */
  function ItemProfit(item: SaleItem, products: seq<Product>): int
  {
    match StoreOps.FindProduct(products, item.productId)
    case None => 0
    case Some(p) => (item.unitPrice - p.costPrice) * item.quantity
  }

  function SaleProfit(s: Sale, products: seq<Product>): int
  {
    Sum(s.items, (item: SaleItem) => ItemProfit(item, products))
  }

  function ProfitAt(products: seq<Product>): Sale -> int
  {
    (s: Sale) => SaleProfit(s, products)
  }

  function SalesProfit(sales: seq<Sale>, products: seq<Product>): int
  {
    Sum(sales, ProfitAt(products))
  }

  lemma MissingProductEarnsNothing(item: SaleItem, products: seq<Product>)
    requires !StoreOps.HasProduct(products, item.productId)
    ensures ItemProfit(item, products) == 0
  {
  }

  // ---------------------------------------------------------------------
  // The seven-day series

  const DAY_NAMES: seq<string> := ["Sun", "Mon", "Tue", "Wed", "Thu", "Fri", "Sat"]

  datatype DayPoint = DayPoint(name: string, sales: int, profit: int)

  predicate CountsOnDay(s: Sale, day: int)
  {
    DayOf(s.createdAt) == day && s.status != Disputed
  }

  /** The sales of one calendar day, disputed ones left out. */
  function CountsOn(day: int): Sale -> bool
  {
    (s: Sale) => CountsOnDay(s, day)
  }

  function DaySales(sales: seq<Sale>, day: int): seq<Sale>
  {
    Filter(sales, CountsOn(day))
  }

  /** The bar for one day: its weekday label, the total of the sales that
      count on that day and their profit clamped at zero. */
  function DayPointFor(sales: seq<Sale>, products: seq<Product>, day: int): (d: DayPoint)
    ensures d.profit >= 0
  {
    DayPoint(DAY_NAMES[Weekday(day)], SumWhere(sales, CountsOn(day), TotalAmount),
             StoreOps.ClampAtZero(SumWhere(sales, CountsOn(day), ProfitAt(products))))
  }

  /** The bar's figures are those of the day's sales, filtered and then summed. */
  lemma DayPointOfDaySales(sales: seq<Sale>, products: seq<Product>, day: int)
    ensures DayPointFor(sales, products, day).sales == Sum(DaySales(sales, day), TotalAmount)
    ensures DayPointFor(sales, products, day).profit
            == StoreOps.ClampAtZero(SalesProfit(DaySales(sales, day), products))
  {
    SumFilter(sales, CountsOn(day), TotalAmount);
    SumFilter(sales, CountsOn(day), ProfitAt(products));
  }

  /** Seven bars, oldest day first: entry k is for the day 6 - k days before today. */
  method DailySalesData(sales: seq<Sale>, products: seq<Product>, now: int) returns (data: seq<DayPoint>)
    ensures |data| == 7
    ensures forall k :: 0 <= k < 7 ==> data[k] == DayPointFor(sales, products, DayOf(now) - 6 + k)
  {
    var today := DayOf(now);
    data := [];
    var i := 6;
    while i >= 0
      invariant -1 <= i <= 6
      invariant |data| == 6 - i
      invariant forall k :: 0 <= k < |data| ==> data[k] == DayPointFor(sales, products, today - 6 + k)
    {
      // `date.setDate(date.getDate() - i)`: the calendar day i days back
      var point := DayBar(sales, products, today - i);
      data := data + [point];
      i := i - 1;
    }
  }

  /** One iteration: the day's label, its sales filtered out of all sales,
      their total and their profit. */
  method DayBar(sales: seq<Sale>, products: seq<Product>, day: int) returns (point: DayPoint)
    ensures point == DayPointFor(sales, products, day)
  {
    var dayName := DAY_NAMES[Weekday(day)];
    var daySales := DaySales(sales, day);
    var salesTotal := Sum(daySales, TotalAmount);
    var profit := SalesProfit(daySales, products);
    point := DayPoint(dayName, salesTotal, StoreOps.ClampAtZero(profit));
    DayPointOfDaySales(sales, products, day);
  }

  /** The labels follow the calendar: the clock's first day, 1 January 1970,
      was a Thursday, and a label comes round again every seven days. */
  lemma DayLabels(sales: seq<Sale>, products: seq<Product>, day: int)
    ensures DayPointFor(sales, products, 0).name == "Thu"
    ensures DayPointFor(sales, products, day + 7).name == DayPointFor(sales, products, day).name
  {
    assert Weekday(day + 7) == Weekday(day);
  }

  /** A day's bar counts a sale exactly when it was made that day and is not
      disputed, and its total is the sum of those sales. */
  lemma DayPointCountsThatDay(sales: seq<Sale>, products: seq<Product>, day: int)
    ensures var d := DaySales(sales, day);
            && (forall i :: 0 <= i < |d| ==> d[i] in sales && DayOf(d[i].createdAt) == day && d[i].status != Disputed)
            && (forall k :: 0 <= k < |sales| && DayOf(sales[k].createdAt) == day && sales[k].status != Disputed ==> sales[k] in d)
            && DayPointFor(sales, products, day).sales == Sum(d, TotalAmount)
  {
    DayPointOfDaySales(sales, products, day);
  }

  // ---------------------------------------------------------------------
  // Stock value per category

  datatype CategoryValue = CategoryValue(name: string, value: int)

  function CategoryName(c: CategoryValue): string
  {
    c.name
  }

  function CategoryAmount(c: CategoryValue): int
  {
    c.value
  }

  /** One step of the fold: an existing entry for the product's category
      grows by its stock value, otherwise a new entry is appended. */
  function AddToTotals(acc: seq<CategoryValue>, p: Product): seq<CategoryValue>
  {
    match IndexOf(acc, CategoryName, p.category)
    case None => acc + [CategoryValue(p.category, InventoryView.StockValue(p))]
    case Some(k) => acc[k := CategoryValue(p.category, acc[k].value + InventoryView.StockValue(p))]
  }

  /** The accumulator after folding `products` in order. */
  function CategoryTotals(products: seq<Product>): seq<CategoryValue>
    decreases |products|
  {
    if |products| == 0 then []
    else AddToTotals(CategoryTotals(products[..|products| - 1]), products[|products| - 1])
  }

  method CategoryData(products: seq<Product>) returns (acc: seq<CategoryValue>)
    ensures acc == CategoryTotals(products)
  {
    if |products| == 0 {
      return [];
    }
    acc := [];
    for i := 0 to |products|
      invariant acc == CategoryTotals(products[..i])
    {
      var product := products[i];
      assert products[..i + 1][..i] == products[..i];
      var existing := IndexOf(acc, CategoryName, product.category);
      if existing.Some? {
        var k := existing.value;
        acc := acc[k := CategoryValue(acc[k].name, acc[k].value + InventoryView.StockValue(product))];
      } else {
        acc := acc + [CategoryValue(product.category, InventoryView.StockValue(product))];
      }
    }
    assert products[..|products|] == products;
  }

  /** The stock value held in one category. */
  function ValueInCategory(products: seq<Product>, category: string): int
  {
    Sum(Filter(products, (p: Product) => p.category == category), InventoryView.StockValue)
  }

  lemma {:induction false} ValueInCategoryAppend(products: seq<Product>, p: Product, category: string)
    ensures ValueInCategory(products + [p], category)
            == ValueInCategory(products, category) + (if p.category == category then InventoryView.StockValue(p) else 0)
  {
    var sel := (q: Product) => q.category == category;
    FilterAppend(products, [p], sel);
    SumAppend(Filter(products, sel), Filter([p], sel), InventoryView.StockValue);
    assert [p][..0] == [];
    assert Filter([p], sel) == if p.category == category then [p] else [];
    assert Sum([p], InventoryView.StockValue) == InventoryView.StockValue(p) by {
      assert [p][..0] == [];
    }
  }

  /** A category no product has holds no value. */
  lemma NoValueOutsideCategories(products: seq<Product>, category: string)
    requires category !in InventoryView.Categories(products)
    ensures ValueInCategory(products, category) == 0
  {
    var f := Filter(products, (q: Product) => q.category == category);
    if |f| > 0 {
      assert false;
    }
  }

  /** One entry per distinct category, in order of first appearance. */
  lemma {:induction false} CategoryTotalsNames(products: seq<Product>)
    ensures var r := CategoryTotals(products);
            && |r| == |InventoryView.Categories(products)|
            && (forall i :: 0 <= i < |r| ==> r[i].name == InventoryView.Categories(products)[i])
    decreases |products|
  {
    if |products| > 0 {
      var init := products[..|products| - 1];
      var c := products[|products| - 1].category;
      var cats := InventoryView.Categories(init);
      CategoryTotalsNames(init);
      assert InventoryView.Categories(products) == if c in cats then cats else cats + [c];
      AddToTotalsNames(CategoryTotals(init), cats, products[|products| - 1]);
    }
  }

  /** A fold step keeps the names in step with the category list: a known
      category adds no entry, a new one is appended. */
  lemma AddToTotalsNames(acc: seq<CategoryValue>, cats: seq<string>, p: Product)
    requires |acc| == |cats|
    requires forall i :: 0 <= i < |acc| ==> acc[i].name == cats[i]
    ensures var r := AddToTotals(acc, p);
            var cats' := if p.category in cats then cats else cats + [p.category];
            && |r| == |cats'|
            && (forall i :: 0 <= i < |r| ==> r[i].name == cats'[i])
  {
    match IndexOf(acc, CategoryName, p.category)
    case None =>
    case Some(k) =>
      assert cats[k] == p.category;
  }

  /** How one fold step changes the entry at position `i`, when the entries
      have distinct names. */
  lemma AddToTotalsEntry(acc: seq<CategoryValue>, p: Product, i: nat)
    requires forall a, b :: 0 <= a < b < |acc| ==> acc[a].name != acc[b].name
    requires i < |AddToTotals(acc, p)|
    ensures var r := AddToTotals(acc, p);
            && (i < |acc| ==> (r[i].name == acc[i].name &&
                 r[i].value == acc[i].value + (if acc[i].name == p.category then InventoryView.StockValue(p) else 0)))
            && (i == |acc| ==> (r[i] == CategoryValue(p.category, InventoryView.StockValue(p)) &&
                 forall j :: 0 <= j < |acc| ==> acc[j].name != p.category))
  {
    match IndexOf(acc, CategoryName, p.category)
    case None =>
    case Some(k) =>
      if i != k && i < |acc| {
        assert acc[i].name != acc[k].name;
      }
  }

  /** Each entry holds exactly its category's stock value. */
  lemma {:induction false} CategoryTotalsValues(products: seq<Product>)
    ensures var r := CategoryTotals(products);
            forall i :: 0 <= i < |r| ==> r[i].value == ValueInCategory(products, r[i].name)
    decreases |products|
  {
    if |products| > 0 {
      var init := products[..|products| - 1];
      var p := products[|products| - 1];
      assert products == init + [p];
      CategoryTotalsValues(init);
      CategoryTotalsNames(init);
      var acc := CategoryTotals(init);
      var r := CategoryTotals(products);
      assert r == AddToTotals(acc, p);
      forall i | 0 <= i < |r|
        ensures r[i].value == ValueInCategory(products, r[i].name)
      {
        AddToTotalsEntry(acc, p, i);
        ValueInCategoryAppend(init, p, r[i].name);
        if i == |acc| {
          NoValueOutsideCategories(init, p.category);
        }
      }
    }
  }

  /** One fold step adds the product's stock value to the entries' total. */
  lemma AddToTotalsSum(acc: seq<CategoryValue>, p: Product)
    ensures Sum(AddToTotals(acc, p), CategoryAmount) == Sum(acc, CategoryAmount) + InventoryView.StockValue(p)
  {
    var v := InventoryView.StockValue(p);
    match IndexOf(acc, CategoryName, p.category)
    case None =>
      var e := [CategoryValue(p.category, v)];
      SumAppend(acc, e, CategoryAmount);
      assert e[..0] == [];
    case Some(k) =>
      SumUpdate(acc, k, CategoryValue(p.category, acc[k].value + v), CategoryAmount);
  }

  /** The entries add up to the inventory's total value. */
  lemma {:induction false} CategoryTotalsSum(products: seq<Product>)
    ensures Sum(CategoryTotals(products), CategoryAmount) == InventoryView.TotalValue(products)
    decreases |products|
  {
    if |products| > 0 {
      var init := products[..|products| - 1];
      var p := products[|products| - 1];
      assert products == init + [p];
      CategoryTotalsSum(init);
      AddToTotalsSum(CategoryTotals(init), p);
      SumAppend(init, [p], InventoryView.StockValue);
      assert [p][..0] == [];
    }
  }

  // ---------------------------------------------------------------------
  // Rep bars

  const REP_TARGET: int := 300000

  datatype RepBar = RepBar(name: string, sales: int, target: int)

  function RepBarFor(rep: SalesRep): RepBar
  {
    RepBar(Text.FirstWord(rep.name), rep.totalSales, REP_TARGET)
  }

  /** One bar per rep, in order: the first word of the name, the stored total
      and the fixed target. */
  function RepPerformance(reps: seq<SalesRep>): (bars: seq<RepBar>)
    ensures |bars| == |reps|
    ensures forall i :: 0 <= i < |reps| ==>
              bars[i].name == Text.SplitOnSpace(reps[i].name)[0]
              && bars[i].sales == reps[i].totalSales && bars[i].target == 300000
  {
    Map(reps, RepBarFor)
  }

  // ---------------------------------------------------------------------
  // Headline totals

  function TotalSales(sales: seq<Sale>): int
  {
    Sum(Filter(sales, NotDisputed), TotalAmount)
  }

  function TotalProfit(sales: seq<Sale>, products: seq<Product>): int
  {
    SalesProfit(Filter(sales, NotDisputed), products)
  }

  /** Total profit grows sale by sale: a disputed sale adds nothing, any
      other sale adds its item margins at the current cost prices. */
  lemma TotalProfitSnoc(sales: seq<Sale>, s: Sale, products: seq<Product>)
    ensures s.status == Disputed ==> TotalProfit(sales + [s], products) == TotalProfit(sales, products)
    ensures s.status != Disputed ==>
              TotalProfit(sales + [s], products) == TotalProfit(sales, products) + SaleProfit(s, products)
  {
    FilterSnoc(sales, s, NotDisputed);
    if s.status != Disputed {
      SumSnoc(Filter(sales, NotDisputed), s, ProfitAt(products));
    }
  }

  /** `totalSales / sales.length`, or 0 without sales: the page passes the
      non-disputed total and the number of ALL sales, disputed ones included. */
  function AvgOrderValue(totalSales: int, saleCount: nat): (avg: real)
    ensures saleCount == 0 ==> avg == 0.0
    ensures saleCount > 0 ==> avg * saleCount as real == totalSales as real
    ensures totalSales >= 0 ==> avg >= 0.0
  {
    if saleCount > 0 then totalSales as real / saleCount as real else 0.0
  }

  /** One more sale that adds nothing to the total lowers a positive average. */
  lemma MoreSalesSameTotalLowersAverage(totalSales: int, saleCount: nat)
    requires totalSales > 0 && saleCount > 0
    ensures AvgOrderValue(totalSales, saleCount + 1) < AvgOrderValue(totalSales, saleCount)
  {
    var before, after := AvgOrderValue(totalSales, saleCount), AvgOrderValue(totalSales, saleCount + 1);
    var n := saleCount as real;
    assert after * (n + 1.0) == before * n;
    assert (before - after) * n == after;
  }

  /** A disputed sale leaves the total where it was and, on a page with sales
      worth something, lowers the average. */
  lemma DisputedSaleDilutesAverage(sales: seq<Sale>, d: Sale)
    requires d.status == Disputed
    ensures TotalSales(sales + [d]) == TotalSales(sales)
    ensures TotalSales(sales) > 0 && |sales| > 0 ==>
              AvgOrderValue(TotalSales(sales + [d]), |sales + [d]|) < AvgOrderValue(TotalSales(sales), |sales|)
  {
    FilterSnoc(sales, d, NotDisputed);
    if TotalSales(sales) > 0 && |sales| > 0 {
      MoreSalesSameTotalLowersAverage(TotalSales(sales), |sales|);
    }
  }

  // ---------------------------------------------------------------------
  // Week over week

  function ThisWeekStart(now: int): int
  {
    now - 7 * DAY_MS
  }

  function LastWeekStart(now: int): int
  {
    now - 14 * DAY_MS
  }

  predicate InThisWeek(s: Sale, now: int)
  {
    s.createdAt >= ThisWeekStart(now) && s.status != Disputed
  }

  predicate InLastWeek(s: Sale, now: int)
  {
    s.createdAt >= LastWeekStart(now) && s.createdAt < ThisWeekStart(now) && s.status != Disputed
  }

  function ThisWeekSales(sales: seq<Sale>, now: int): int
  {
    Sum(Filter(sales, (s: Sale) => InThisWeek(s, now)), TotalAmount)
  }

  function LastWeekSales(sales: seq<Sale>, now: int): int
  {
    Sum(Filter(sales, (s: Sale) => InLastWeek(s, now)), TotalAmount)
  }

  /** The percentage change, or 0 when last week had nothing (before `toFixed(1)`). */
  function SalesChange(thisWeek: int, lastWeek: int): (pct: real)
    ensures lastWeek <= 0 ==> pct == 0.0
    ensures lastWeek > 0 ==> (pct > 0.0 <==> thisWeek > lastWeek) && (pct < 0.0 <==> thisWeek < lastWeek)
    ensures lastWeek > 0 ==> pct * lastWeek as real == (thisWeek - lastWeek) as real * 100.0
  {
    if lastWeek > 0 then ((thisWeek - lastWeek) as real / lastWeek as real) * 100.0 else 0.0
  }

  /** No sale falls in both weeks. */
  lemma WeeksDisjoint(s: Sale, now: int)
    ensures !(InThisWeek(s, now) && InLastWeek(s, now))
  {
  }

  predicate InLastTwoWeeks(s: Sale, now: int)
  {
    s.createdAt >= LastWeekStart(now) && s.status != Disputed
  }

  /** The two weeks together are exactly the counted sales of the last fourteen days. */
  lemma WeeksSplitFortnight(sales: seq<Sale>, now: int)
    ensures ThisWeekSales(sales, now) + LastWeekSales(sales, now)
            == Sum(Filter(sales, (s: Sale) => InLastTwoWeeks(s, now)), TotalAmount)
  {
    var two := (s: Sale) => InLastTwoWeeks(s, now);
    var recent := (s: Sale) => s.createdAt >= ThisWeekStart(now);
    var older := (s: Sale) => !(s.createdAt >= ThisWeekStart(now));
    FilterFilter(sales, two, recent, (s: Sale) => InThisWeek(s, now));
    FilterFilter(sales, two, older, (s: Sale) => InLastWeek(s, now));
    SumPartition(Filter(sales, two), recent, older, TotalAmount);
  }
}
