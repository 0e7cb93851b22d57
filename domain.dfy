/** The records the store keeps (`Product`, `Sale`, `StockLog`, `SalesRep`,
    `Activity`), the shapes its operations take as input, and the notions of
    time and stock level that every view shares. */
module Domain {
  import opened Seqs
  import Text

  // ---------------------------------------------------------------------
  // Time: integer milliseconds on the local clock

  const DAY_MS: int := 86400000

  /** The calendar day of a moment; two moments print the same
      `toDateString()` exactly when their days agree. */
  function DayOf(t: int): int
  {
    t / DAY_MS
  }

  /** Local midnight of the day of `now` (`setHours(0, 0, 0, 0)`). */
  function Midnight(now: int): (m: int)
    ensures m <= now < m + DAY_MS
    ensures DayOf(m) == DayOf(now)
  {
    DayOf(now) * DAY_MS
  }

  /** Being on the same day as `now` is the same as lying in the half-open
      day that starts at its midnight. */
  lemma SameDayIsTodayWindow(t: int, now: int)
    ensures DayOf(t) == DayOf(now) <==> Midnight(now) <= t < Midnight(now) + DAY_MS
  {
    var m := Midnight(now);
    if Midnight(now) <= t < Midnight(now) + DAY_MS {
      assert (t - m) / DAY_MS == 0;
      assert t == m + (t - m);
      DivShift(t - m, DayOf(now));
    }
    if DayOf(t) == DayOf(now) {
      assert DayOf(t) * DAY_MS <= t < DayOf(t) * DAY_MS + DAY_MS;
    }
  }

  lemma DivShift(r: int, k: int)
    requires 0 <= r < DAY_MS
    ensures (k * DAY_MS + r) / DAY_MS == k
  {
  }

  /** Stepping back whole days (`setDate(getDate() - i)`) moves the day by the same count. */
  lemma DayOfShift(t: int, i: int)
    ensures DayOf(t - i * DAY_MS) == DayOf(t) - i
  {
    var r := t - DayOf(t) * DAY_MS;
    assert 0 <= r < DAY_MS;
    assert t - i * DAY_MS == (DayOf(t) - i) * DAY_MS + r;
    DivShift(r, DayOf(t) - i);
  }

  /** `getDay()`: 0 is Sunday; day 0 of the clock (1 January 1970) was a Thursday. */
  function Weekday(day: int): (w: int)
    ensures 0 <= w < 7
  {
    (day + 4) % 7
  }

  // ---------------------------------------------------------------------
  // Records

  datatype Product = Product(
    id: string,
    name: string,
    category: string,
    quantity: int,
    unit: string,
    costPrice: int,
    sellingPrice: int,
    lowStockThreshold: int,
    description: Option<string>,
    createdAt: int,
    updatedAt: int)

  datatype SaleItem = SaleItem(
    productId: string,
    productName: string,
    quantity: int,
    unitPrice: int,
    total: int)

  datatype SaleStatus = Pending | Approved | Disputed

  datatype Sale = Sale(
    id: string,
    items: seq<SaleItem>,
    totalAmount: int,
    paymentMethod: string,
    salesRepId: string,
    salesRepName: string,
    status: SaleStatus,
    createdAt: int)

  /** The `type` of a stock log: "add", "sale" or "adjustment". */
  datatype LogKind = AddLog | SaleLog | AdjustmentLog

  datatype StockLog = StockLog(
    id: string,
    productId: string,
    productName: string,
    kind: LogKind,
    quantity: int,
    previousQuantity: int,
    newQuantity: int,
    note: Option<string>,
    userId: string,
    userName: string,
    createdAt: int)

  datatype SalesRep = SalesRep(
    id: string,
    name: string,
    email: string,
    phone: string,
    pin: string,
    isActive: bool,
    todaySales: int,
    totalSales: int,
    createdAt: int)

  /** The `type` of an activity: "sale", "stock", "login" or "approval". */
  datatype ActivityKind = SaleActivity | StockActivity | LoginActivity | ApprovalActivity

  datatype Activity = Activity(
    id: string,
    kind: ActivityKind,
    message: string,
    userId: string,
    userName: string,
    amount: Option<int>,
    createdAt: int)

  // ---------------------------------------------------------------------
  // Operation inputs: a record minus its generated fields, or a partial record

  /** `Omit<Product, "id" | "createdAt" | "updatedAt">`. */
  datatype ProductDraft = ProductDraft(
    name: string,
    category: string,
    quantity: int,
    unit: string,
    costPrice: int,
    sellingPrice: int,
    lowStockThreshold: int,
    description: Option<string>)

  /** `Omit<Sale, "id" | "createdAt">`. */
  datatype SaleDraft = SaleDraft(
    items: seq<SaleItem>,
    totalAmount: int,
    paymentMethod: string,
    salesRepId: string,
    salesRepName: string,
    status: SaleStatus)

  /** `Omit<Activity, "id" | "createdAt">`. */
  datatype ActivityDraft = ActivityDraft(
    kind: ActivityKind,
    message: string,
    userId: string,
    userName: string,
    amount: Option<int>)

  /** `Omit<SalesRep, "id" | "createdAt" | "todaySales" | "totalSales">`. */
  datatype SalesRepDraft = SalesRepDraft(
    name: string,
    email: string,
    phone: string,
    pin: string,
    isActive: bool)

  /** `Partial<Product>`: a present field overrides, an absent one keeps.
      The description is itself optional, so a patch may set it to undefined. */
  datatype ProductPatch = ProductPatch(
    id: Option<string>,
    name: Option<string>,
    category: Option<string>,
    quantity: Option<int>,
    unit: Option<string>,
    costPrice: Option<int>,
    sellingPrice: Option<int>,
    lowStockThreshold: Option<int>,
    description: Option<Option<string>>,
    createdAt: Option<int>,
    updatedAt: Option<int>)

  /** `Partial<SalesRep>`. */
  datatype SalesRepPatch = SalesRepPatch(
    id: Option<string>,
    name: Option<string>,
    email: Option<string>,
    phone: Option<string>,
    pin: Option<string>,
    isActive: Option<bool>,
    todaySales: Option<int>,
    totalSales: Option<int>,
    createdAt: Option<int>)

  /** `{ ...p, ...updates }`. */
  function PatchProduct(p: Product, u: ProductPatch): Product
  {
    Product(
      u.id.GetOr(p.id), u.name.GetOr(p.name), u.category.GetOr(p.category),
      u.quantity.GetOr(p.quantity), u.unit.GetOr(p.unit), u.costPrice.GetOr(p.costPrice),
      u.sellingPrice.GetOr(p.sellingPrice), u.lowStockThreshold.GetOr(p.lowStockThreshold),
      u.description.GetOr(p.description), u.createdAt.GetOr(p.createdAt), u.updatedAt.GetOr(p.updatedAt))
  }

  /** `{ ...r, ...updates }`. */
  function PatchSalesRep(r: SalesRep, u: SalesRepPatch): SalesRep
  {
    SalesRep(
      u.id.GetOr(r.id), u.name.GetOr(r.name), u.email.GetOr(r.email), u.phone.GetOr(r.phone),
      u.pin.GetOr(r.pin), u.isActive.GetOr(r.isActive), u.todaySales.GetOr(r.todaySales),
      u.totalSales.GetOr(r.totalSales), u.createdAt.GetOr(r.createdAt))
  }

  /** A patch with every field absent. */
  function NoProductChanges(): ProductPatch
  {
    ProductPatch(None, None, None, None, None, None, None, None, None, None, None)
  }

  function NoSalesRepChanges(): SalesRepPatch
  {
    SalesRepPatch(None, None, None, None, None, None, None, None, None)
  }

  /** An empty patch leaves a record as it is. */
  lemma EmptyPatchesChangeNothing(p: Product, r: SalesRep)
    ensures PatchProduct(p, NoProductChanges()) == p
    ensures PatchSalesRep(r, NoSalesRepChanges()) == r
  {
  }

  /** `Number.parseInt(value) || 1`, given the parse: no number (NaN), or 0,
      becomes 1; any other number, negative ones included, goes through. */
  function OrOne(parsed: Option<int>): (q: int)
    ensures q != 0
    ensures parsed.Some? && parsed.value != 0 ==> q == parsed.value
    ensures parsed.None? ==> q == 1
  {
    if parsed.Some? && parsed.value != 0 then parsed.value else 1
  }

  /** `note || undefined`: an empty text is absent. */
  function OrUndefined(s: string): (r: Option<string>)
    ensures r.None? <==> s == ""
    ensures r.Some? ==> r.value == s
  {
    if s == "" then None else Some(s)
  }

  /** `p.name.toLowerCase().includes(searchQuery.toLowerCase())`, as a filter. */
  function NameMatches(searchQuery: string): Product -> bool
  {
    (p: Product) => Text.IncludesIgnoringCase(p.name, searchQuery)
  }

  // ---------------------------------------------------------------------
  // Who acts: `currentUser?.id || "owner"`

  /** `value || fallback` on a string: the empty string is falsy, so it
      gives way to the fallback. */
  function OrElse(value: string, fallback: string): (r: string)
    ensures value != "" ==> r == value
    ensures value == "" ==> r == fallback
    ensures fallback != "" ==> r != ""
  {
    if value != "" then value else fallback
  }

  /** `currentUser?.id || "owner"`: an absent user, or one whose id is empty, acts as the owner. */
  function ActorId(user: Option<SalesRep>): string
  {
    OrElse(if user.Some? then user.value.id else "", "owner")
  }

  /** `currentUser?.name || "Owner"`. */
  function ActorName(user: Option<SalesRep>): string
  {
    OrElse(if user.Some? then user.value.name else "", "Owner")
  }

  // ---------------------------------------------------------------------
  // Stock levels shared by the inventory, dashboard, carousel and rep views

  predicate IsLowStock(p: Product)
  {
    p.quantity <= p.lowStockThreshold
  }

  predicate IsOutOfStock(p: Product)
  {
    p.quantity == 0
  }

  predicate IsInStock(p: Product)
  {
    p.quantity > p.lowStockThreshold
  }

  function LowStockProducts(products: seq<Product>): (r: seq<Product>)
    ensures forall i :: 0 <= i < |r| ==> r[i] in products && IsLowStock(r[i])
    ensures forall i :: 0 <= i < |products| && IsLowStock(products[i]) ==> products[i] in r
  {
    Filter(products, IsLowStock)
  }

  function LowStockCount(products: seq<Product>): nat
  {
    Count(products, IsLowStock)
  }

  function InStockCount(products: seq<Product>): nat
  {
    Count(products, IsInStock)
  }

  function OutOfStockCount(products: seq<Product>): nat
  {
    Count(products, IsOutOfStock)
  }

  /** Low stock and in stock split the products between them. */
  lemma LowAndInStockPartition(products: seq<Product>)
    ensures LowStockCount(products) + InStockCount(products) == |products|
  {
    CountPartition(products, IsLowStock, IsInStock);
  }

  /** With a non-negative threshold an out-of-stock product is also low on stock. */
  lemma OutOfStockIsLowStock(products: seq<Product>)
    requires forall p :: p in products ==> p.lowStockThreshold >= 0
    ensures OutOfStockCount(products) <= LowStockCount(products)
  {
    assert forall p :: p in products && IsOutOfStock(p) ==> IsLowStock(p);
    FilterMonotone(products, IsOutOfStock, IsLowStock);
    SubsequenceLength(Filter(products, IsOutOfStock), Filter(products, IsLowStock));
  }

  lemma {:induction false} SubsequenceLength<T>(a: seq<T>, b: seq<T>)
    requires IsSubsequence(a, b)
    ensures |a| <= |b|
    decreases |b|
  {
    if |b| > 0 {
      if IsSubsequence(a, b[..|b| - 1]) {
        SubsequenceLength(a, b[..|b| - 1]);
      } else {
        SubsequenceLength(a[..|a| - 1], b[..|b| - 1]);
      }
    }
  }

  // ---------------------------------------------------------------------
  // Sale windows shared by several views

  predicate NotDisputed(s: Sale)
  {
    s.status != Disputed
  }

  predicate IsPending(s: Sale)
  {
    s.status == Pending
  }

  predicate IsApproved(s: Sale)
  {
    s.status == Approved
  }

  function TotalAmount(s: Sale): int
  {
    s.totalAmount
  }

  /** The sale was made on the same calendar day as `now`. */
  predicate SameDay(s: Sale, now: int)
  {
    DayOf(s.createdAt) == DayOf(now)
  }

  function SameDayAs(now: int): Sale -> bool
  {
    (s: Sale) => SameDay(s, now)
  }

  /** `sales.filter((s) => new Date(s.createdAt).toDateString() === today.toDateString())`:
      today's sales of every status, in order. */
  function TodaySales(sales: seq<Sale>, now: int): seq<Sale>
  {
    Filter(sales, SameDayAs(now))
  }

  /** `toLocaleString()` of an integer amount in the en-US locale: digits
      grouped in threes with commas. */
  function LocaleString(n: int): string
  {
    if n < 0 then "-" + Grouped(-n) else Grouped(n)
  }

  function Grouped(n: nat): string
  {
    if n < 1000 then Text.NatString(n)
    else Grouped(n / 1000) + "," + Pad3(n % 1000)
  }

  function Pad3(n: nat): (r: string)
    requires n < 1000
    ensures |r| == 3
  {
    [Text.DigitChar(n / 100), Text.DigitChar(n / 10 % 10), Text.DigitChar(n % 10)]
  }
}
