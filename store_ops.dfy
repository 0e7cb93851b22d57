/** The store's state as a value and each of its twelve operations as a
    transition from the old state to the new one. Ids (`Date.now()`) arrive
    as `stamp` and timestamps as `now`. */
module StoreOps {
  import opened Seqs
  import opened Domain
  import Text

  datatype StoreState = StoreState(
    products: seq<Product>,
    sales: seq<Sale>,
    stockLogs: seq<StockLog>,
    salesReps: seq<SalesRep>,
    activities: seq<Activity>,
    currentUser: Option<SalesRep>)

  /** The store as first created: every collection empty, nobody logged in. */
  function Initial(): StoreState
  {
    StoreState([], [], [], [], [], None)
  }

  // ---------------------------------------------------------------------
  // Lookups

  function FindProduct(products: seq<Product>, id: string): Option<Product>
  {
    Find(products, (p: Product) => p.id, id)
  }

  function FindSale(sales: seq<Sale>, id: string): Option<Sale>
  {
    Find(sales, (s: Sale) => s.id, id)
  }

  /** `sale.items.find((item) => item.productId === product.id)`. */
  function FirstItemFor(items: seq<SaleItem>, productId: string): Option<SaleItem>
  {
    Find(items, (it: SaleItem) => it.productId, productId)
  }

  predicate HasProduct(products: seq<Product>, id: string)
  {
    exists j :: 0 <= j < |products| && products[j].id == id
  }

  lemma FindProductPresent(products: seq<Product>, id: string)
    requires HasProduct(products, id)
    ensures FindProduct(products, id).Some? && FindProduct(products, id).value.id == id
  {
  }

  /** Every line item of the sale names a product in the store: without this the
      source's `find(...)!` yields undefined and reading its quantity throws. */
  predicate SaleProductsExist(products: seq<Product>, items: seq<SaleItem>)
  {
    forall i :: 0 <= i < |items| ==> HasProduct(products, items[i].productId)
  }

  // ---------------------------------------------------------------------
  // Record builders

  function ProductFromDraft(d: ProductDraft, stamp: string, now: int): Product
  {
    Product(stamp, d.name, d.category, d.quantity, d.unit, d.costPrice, d.sellingPrice,
            d.lowStockThreshold, d.description, now, now)
  }

  function SaleFromDraft(d: SaleDraft, stamp: string, now: int): Sale
  {
    Sale(stamp, d.items, d.totalAmount, d.paymentMethod, d.salesRepId, d.salesRepName, d.status, now)
  }

  function SalesRepFromDraft(d: SalesRepDraft, stamp: string, now: int): SalesRep
  {
    SalesRep(stamp, d.name, d.email, d.phone, d.pin, d.isActive, 0, 0, now)
  }

  /** `Math.max(0, x)`. */
  function ClampAtZero(x: int): (r: int)
    ensures r >= 0 && r >= x
    ensures x >= 0 ==> r == x
  {
    if x > 0 then x else 0
  }

  /** The stock change a sale makes to one product: the first line item for
      it is subtracted, later items for the same product are ignored. */
  function SellFrom(p: Product, items: seq<SaleItem>, now: int): Product
  {
    match FirstItemFor(items, p.id)
    case None => p
    case Some(item) => p.(quantity := p.quantity - item.quantity, updatedAt := now)
  }

  /** The stock change a dispute makes to one product: the first line item is added back. */
  function RestockFrom(p: Product, items: seq<SaleItem>, now: int): Product
  {
    match FirstItemFor(items, p.id)
    case None => p
    case Some(item) => p.(quantity := p.quantity + item.quantity, updatedAt := now)
  }

  /** The ledger entry for one line item, read against the products before the sale. */
  function SaleLogFor(products: seq<Product>, sale: SaleDraft, item: SaleItem, stamp: string, now: int): StockLog
    requires HasProduct(products, item.productId)
  {
    FindProductPresent(products, item.productId);
    var product := FindProduct(products, item.productId).value;
    StockLog(stamp + "-" + item.productId, item.productId, item.productName, SaleLog,
             item.quantity, product.quantity, product.quantity - item.quantity,
             None, sale.salesRepId, sale.salesRepName, now)
  }

  function SaleLogs(products: seq<Product>, sale: SaleDraft, stamp: string, now: int): (logs: seq<StockLog>)
    requires SaleProductsExist(products, sale.items)
    ensures |logs| == |sale.items|
  {
    seq(|sale.items|, i requires 0 <= i < |sale.items| => SaleLogFor(products, sale, sale.items[i], stamp, now))
  }

  function Credit(r: SalesRep, amount: int): SalesRep
  {
    r.(todaySales := r.todaySales + amount, totalSales := r.totalSales + amount)
  }

  function Debit(r: SalesRep, amount: int): SalesRep
  {
    r.(todaySales := ClampAtZero(r.todaySales - amount), totalSales := ClampAtZero(r.totalSales - amount))
  }

  // ---------------------------------------------------------------------
  // The new collections each operation builds

  function UpdatedProducts(products: seq<Product>, id: string, updates: ProductPatch, now: int): seq<Product>
  {
    MapWhere(products, (p: Product) => p.id == id, (p: Product) => PatchProduct(p, updates).(updatedAt := now))
  }

  function WithoutProduct(products: seq<Product>, id: string): seq<Product>
  {
    Filter(products, (p: Product) => p.id != id)
  }

  function Restocked(products: seq<Product>, id: string, quantity: int, now: int): seq<Product>
  {
    MapWhere(products, (p: Product) => p.id == id, (p: Product) => p.(quantity := p.quantity + quantity, updatedAt := now))
  }

  function AfterSale(products: seq<Product>, items: seq<SaleItem>, now: int): seq<Product>
  {
    Map(products, (p: Product) => SellFrom(p, items, now))
  }

  function AfterDispute(products: seq<Product>, items: seq<SaleItem>, now: int): seq<Product>
  {
    Map(products, (p: Product) => RestockFrom(p, items, now))
  }

  function Credited(reps: seq<SalesRep>, repId: string, amount: int): seq<SalesRep>
  {
    MapWhere(reps, (r: SalesRep) => r.id == repId, (r: SalesRep) => Credit(r, amount))
  }

  function Debited(reps: seq<SalesRep>, repId: string, amount: int): seq<SalesRep>
  {
    MapWhere(reps, (r: SalesRep) => r.id == repId, (r: SalesRep) => Debit(r, amount))
  }

  function WithStatus(sales: seq<Sale>, saleId: string, status: SaleStatus): seq<Sale>
  {
    MapWhere(sales, (s: Sale) => s.id == saleId, (s: Sale) => s.(status := status))
  }

  function UpdatedReps(reps: seq<SalesRep>, id: string, updates: SalesRepPatch): seq<SalesRep>
  {
    MapWhere(reps, (r: SalesRep) => r.id == id, (r: SalesRep) => PatchSalesRep(r, updates))
  }

  function WithoutRep(reps: seq<SalesRep>, id: string): seq<SalesRep>
  {
    Filter(reps, (r: SalesRep) => r.id != id)
  }

  // ---------------------------------------------------------------------
  // The entries each operation writes

  function LoginEntry(rep: SalesRep, stamp: string, now: int): Activity
  {
    Activity(stamp, LoginActivity, "logged in", rep.id, rep.name, None, now)
  }

  function ProductAddedEntry(d: ProductDraft, stamp: string, now: int): Activity
  {
    Activity("activity-" + stamp, StockActivity, "added new product: " + d.name, "owner", "Owner", None, now)
  }

  function StockAddedLog(product: Product, quantity: int, note: Option<string>, user: Option<SalesRep>,
                         stamp: string, now: int): StockLog
  {
    StockLog(stamp, product.id, product.name, AddLog, quantity, product.quantity, product.quantity + quantity,
             note, ActorId(user), ActorName(user), now)
  }

  function StockAddedEntry(product: Product, quantity: int, user: Option<SalesRep>, stamp: string, now: int): Activity
  {
    Activity("activity-" + stamp, StockActivity,
             "added " + Text.DecimalString(quantity) + " units to " + product.name,
             ActorId(user), ActorName(user), None, now)
  }

  function SaleEntry(sale: SaleDraft, stamp: string, now: int): Activity
  {
    Activity(stamp, SaleActivity, "recorded a sale", sale.salesRepId, sale.salesRepName, Some(sale.totalAmount), now)
  }

  function ApprovalEntry(sale: Sale, stamp: string, now: int): Activity
  {
    Activity(stamp, ApprovalActivity, "approved sale of ₦" + LocaleString(sale.totalAmount),
             "owner", "Owner", Some(sale.totalAmount), now)
  }

  function DisputeEntry(sale: Sale, stamp: string, now: int): Activity
  {
    Activity(stamp, ApprovalActivity, "disputed sale of ₦" + LocaleString(sale.totalAmount),
             "owner", "Owner", Some(sale.totalAmount), now)
  }

  function RepAddedEntry(d: SalesRepDraft, stamp: string, now: int): Activity
  {
    Activity("activity-" + stamp, LoginActivity, "added new sales rep: " + d.name, "owner", "Owner", None, now)
  }

  // ---------------------------------------------------------------------
  // The twelve operations

  function SetCurrentUser(st: StoreState, rep: Option<SalesRep>, stamp: string, now: int): StoreState
  {
    match rep
    case None => st.(currentUser := None)
    case Some(r) => st.(currentUser := rep, activities := [LoginEntry(r, stamp, now)] + st.activities)
  }

  function AddProduct(st: StoreState, d: ProductDraft, stamp: string, now: int): StoreState
  {
    st.(products := st.products + [ProductFromDraft(d, stamp, now)],
        activities := [ProductAddedEntry(d, stamp, now)] + st.activities)
  }

  function UpdateProduct(st: StoreState, id: string, updates: ProductPatch, now: int): StoreState
  {
    st.(products := UpdatedProducts(st.products, id, updates, now))
  }

  function DeleteProduct(st: StoreState, id: string): StoreState
  {
    st.(products := WithoutProduct(st.products, id))
  }

  /** The log and the activity carry the first matching product's name and
      level; every product with the id is restocked. */
  function AddStock(st: StoreState, productId: string, quantity: int, note: Option<string>,
                    stamp: string, now: int): StoreState
  {
    match FindProduct(st.products, productId)
    case None => st
    case Some(product) =>
      st.(products := Restocked(st.products, productId, quantity, now),
          stockLogs := [StockAddedLog(product, quantity, note, st.currentUser, stamp, now)] + st.stockLogs,
          activities := [StockAddedEntry(product, quantity, st.currentUser, stamp, now)] + st.activities)
  }

  function RecordSale(st: StoreState, sale: SaleDraft, stamp: string, now: int): StoreState
    requires SaleProductsExist(st.products, sale.items)
  {
    st.(products := AfterSale(st.products, sale.items, now),
        sales := [SaleFromDraft(sale, stamp, now)] + st.sales,
        stockLogs := SaleLogs(st.products, sale, stamp, now) + st.stockLogs,
        activities := [SaleEntry(sale, stamp, now)] + st.activities,
        salesReps := Credited(st.salesReps, sale.salesRepId, sale.totalAmount))
  }

  function ApproveSale(st: StoreState, saleId: string, stamp: string, now: int): StoreState
  {
    var found := FindSale(st.sales, saleId);
    st.(sales := WithStatus(st.sales, saleId, Approved),
        activities := if found.Some? then [ApprovalEntry(found.value, stamp, now)] + st.activities
                      else st.activities)
  }

  function DisputeSale(st: StoreState, saleId: string, stamp: string, now: int): StoreState
  {
    match FindSale(st.sales, saleId)
    case None => st
    case Some(sale) =>
      st.(products := AfterDispute(st.products, sale.items, now),
          salesReps := Debited(st.salesReps, sale.salesRepId, sale.totalAmount),
          sales := WithStatus(st.sales, saleId, Disputed),
          activities := [DisputeEntry(sale, stamp, now)] + st.activities)
  }

  function AddActivity(st: StoreState, d: ActivityDraft, stamp: string, now: int): StoreState
  {
    st.(activities := [Activity(stamp, d.kind, d.message, d.userId, d.userName, d.amount, now)] + st.activities)
  }

  function AddSalesRep(st: StoreState, d: SalesRepDraft, stamp: string, now: int): StoreState
  {
    st.(salesReps := st.salesReps + [SalesRepFromDraft(d, stamp, now)],
        activities := [RepAddedEntry(d, stamp, now)] + st.activities)
  }

  function UpdateSalesRep(st: StoreState, id: string, updates: SalesRepPatch): StoreState
  {
    st.(salesReps := UpdatedReps(st.salesReps, id, updates))
  }

  function DeleteSalesRep(st: StoreState, id: string): StoreState
  {
    st.(salesReps := WithoutRep(st.salesReps, id))
  }

  // ---------------------------------------------------------------------
  // Any operation, for statements about every step and about runs of steps

  datatype Op =
    | SetCurrentUserOp(rep: Option<SalesRep>)
    | AddProductOp(product: ProductDraft)
    | UpdateProductOp(productId: string, productUpdates: ProductPatch)
    | DeleteProductOp(productId: string)
    | AddStockOp(stockProductId: string, quantity: int, note: Option<string>)
    | RecordSaleOp(sale: SaleDraft)
    | ApproveSaleOp(saleId: string)
    | DisputeSaleOp(saleId: string)
    | AddActivityOp(activity: ActivityDraft)
    | AddSalesRepOp(newRep: SalesRepDraft)
    | UpdateSalesRepOp(repId: string, repUpdates: SalesRepPatch)
    | DeleteSalesRepOp(repId: string)

  /** One call with the id and the clock it sees. */
  datatype Step = Step(op: Op, stamp: string, now: int)

  /** The call returns normally; only `recordSale` can throw. */
  predicate Completes(st: StoreState, op: Op)
  {
    op.RecordSaleOp? ==> SaleProductsExist(st.products, op.sale.items)
  }

  function Apply(st: StoreState, op: Op, stamp: string, now: int): StoreState
    requires Completes(st, op)
  {
    match op
    case SetCurrentUserOp(rep) => SetCurrentUser(st, rep, stamp, now)
    case AddProductOp(d) => AddProduct(st, d, stamp, now)
    case UpdateProductOp(id, u) => UpdateProduct(st, id, u, now)
    case DeleteProductOp(id) => DeleteProduct(st, id)
    case AddStockOp(id, q, note) => AddStock(st, id, q, note, stamp, now)
    case RecordSaleOp(sale) => RecordSale(st, sale, stamp, now)
    case ApproveSaleOp(id) => ApproveSale(st, id, stamp, now)
    case DisputeSaleOp(id) => DisputeSale(st, id, stamp, now)
    case AddActivityOp(d) => AddActivity(st, d, stamp, now)
    case AddSalesRepOp(d) => AddSalesRep(st, d, stamp, now)
    case UpdateSalesRepOp(id, u) => UpdateSalesRep(st, id, u)
    case DeleteSalesRepOp(id) => DeleteSalesRep(st, id)
  }

  /** A `recordSale` that throws does so before any `set`, so the state is
      left as it was. */
  function StepState(st: StoreState, s: Step): StoreState
  {
    if Completes(st, s.op) then Apply(st, s.op, s.stamp, s.now) else st
  }

  function Run(st: StoreState, steps: seq<Step>): StoreState
    decreases |steps|
  {
    if |steps| == 0 then st else StepState(Run(st, steps[..|steps| - 1]), steps[|steps| - 1])
  }
}
