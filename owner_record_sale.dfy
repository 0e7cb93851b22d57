/** The owner's sale form on the dashboard: the same list of line-item rows
    without a stock bound, an optional sales rep, and a submission that
    records an approved sale in the rep's name or, failing a match, the
    owner's. */
module OwnerRecordSale {
  import opened Seqs
  import opened Domain
  import StoreOps
  import StoreProps
  import DomainStore

  datatype Row = Row(id: string, productId: string, productName: string, quantity: int, price: int)

  function BlankRow(id: string): Row
  {
    Row(id, "", "", 1, 0)
  }

  function InitialRows(): seq<Row>
  {
    [BlankRow("1")]
  }

  function NotId(id: string): Row -> bool
  {
    (r: Row) => r.id != id
  }

  function HasId(id: string): Row -> bool
  {
    (r: Row) => r.id == id
  }

  predicate DistinctIds(rows: seq<Row>)
  {
    forall a, b :: 0 <= a < b < |rows| ==> rows[a].id != rows[b].id
  }

  // ---------------------------------------------------------------------
  // Row actions

  function AfterAddItem(rows: seq<Row>, newId: string): seq<Row>
  {
    rows + [BlankRow(newId)]
  }

  function AfterRemoveItem(rows: seq<Row>, id: string): seq<Row>
  {
    if |rows| > 1 then Filter(rows, NotId(id)) else rows
  }

  /** The row once `p` is chosen: product id, name and selling price; the quantity stays. */
  function Picked(productId: string, p: Product): Row -> Row
  {
    (r: Row) => r.(productId := productId, productName := p.name, price := p.sellingPrice)
  }

  function AfterUpdateItem(rows: seq<Row>, products: seq<Product>, id: string, productId: string): seq<Row>
  {
    match StoreOps.FindProduct(products, productId)
    case None => rows
    case Some(p) => MapWhere(rows, HasId(id), Picked(productId, p))
  }

  function WithQuantity(q: int): Row -> Row
  {
    (r: Row) => r.(quantity := q)
  }

  /** `updateQuantity`: no bound at all, not even against the stock. */
  function AfterUpdateQuantity(rows: seq<Row>, id: string, q: int): seq<Row>
  {
    MapWhere(rows, HasId(id), WithQuantity(q))
  }

  /** With distinct ids `removeItem` takes off exactly the row with the id
      (nothing if none has it), and never the last row. */
  lemma RemoveItemNeverEmpties(rows: seq<Row>, id: string)
    requires DistinctIds(rows) && |rows| >= 1
    ensures |AfterRemoveItem(rows, id)| >= 1
    ensures forall i :: 0 <= i < |rows| && rows[i].id != id ==> rows[i] in AfterRemoveItem(rows, id)
    ensures |rows| > 1 ==> forall r :: r in AfterRemoveItem(rows, id) ==> r in rows && r.id != id
  {
    if |rows| > 1 {
      match IndexOf(rows, (r: Row) => r.id, id)
      case None =>
        FilterAll(rows, NotId(id));
      case Some(k) =>
        FilterDropsOne(rows, NotId(id), k);
    }
  }

  /** Whatever the quantity, the rows with the id take it: neither zero nor
      the stock level bounds it, and the rest are unchanged. */
  lemma UpdateQuantityUnbounded(rows: seq<Row>, id: string, q: int)
    ensures var r := AfterUpdateQuantity(rows, id, q);
            && |r| == |rows|
            && forall i :: 0 <= i < |rows| ==> r[i] == if rows[i].id == id then rows[i].(quantity := q) else rows[i]
  {
  }

  /** `updateItem` sets the row's price to the product's selling price, or
      does nothing for an unknown product. */
  lemma UpdateItemMeaning(rows: seq<Row>, products: seq<Product>, id: string, productId: string)
    ensures !StoreOps.HasProduct(products, productId) ==> AfterUpdateItem(rows, products, id, productId) == rows
    ensures StoreOps.HasProduct(products, productId) ==>
              var p := StoreOps.FindProduct(products, productId).value;
              var r := AfterUpdateItem(rows, products, id, productId);
              && p in products && p.id == productId
              && |r| == |rows|
              && (forall i :: 0 <= i < |rows| && rows[i].id == id ==>
                    r[i] == Row(id, productId, p.name, rows[i].quantity, p.sellingPrice))
              && (forall i :: 0 <= i < |rows| && rows[i].id != id ==> r[i] == rows[i])
  {
    if StoreOps.HasProduct(products, productId) {
      StoreOps.FindProductPresent(products, productId);
    }
  }

  // ---------------------------------------------------------------------
  // The total and the choices

  function LineTotal(r: Row): int
  {
    r.quantity * r.price
  }

  function Total(rows: seq<Row>): int
  {
    Sum(rows, LineTotal)
  }

  /** Changing a row's quantity changes the total by the difference times its price. */
  lemma TotalAfterQuantityChange(rows: seq<Row>, k: nat, q: int)
    requires DistinctIds(rows) && k < |rows|
    ensures Total(AfterUpdateQuantity(rows, rows[k].id, q))
            == Total(rows) + (q - rows[k].quantity) * rows[k].price
  {
    var r := AfterUpdateQuantity(rows, rows[k].id, q);
    assert r == rows[k := rows[k].(quantity := q)];
    SumUpdate(rows, k, rows[k].(quantity := q), LineTotal);
  }

  predicate InStock(p: Product)
  {
    p.quantity > 0
  }

  /** The product picker: every product with stock, whether or not another row has it. */
  function OfferedProducts(products: seq<Product>): (offered: seq<Product>)
    ensures forall p :: p in offered <==> p in products && p.quantity > 0
  {
    Filter(products, InStock)
  }

  predicate IsActiveRep(r: SalesRep)
  {
    r.isActive
  }

  /** The rep picker: the owner option first, then every active rep. */
  function RepChoices(reps: seq<SalesRep>): (ids: seq<string>)
    ensures |ids| >= 1 && ids[0] == "owner"
    ensures forall r :: r in reps && r.isActive ==> r.id in ids[1..]
    ensures forall i :: 1 <= i < |ids| ==> exists r :: r in reps && r.isActive && r.id == ids[i]
  {
    var active := Filter(reps, IsActiveRep);
    var ids := ["owner"] + Map(active, (r: SalesRep) => r.id);
    assert forall r :: r in reps && r.isActive ==> r.id in ids[1..] by {
      forall r | r in reps && r.isActive ensures r.id in ids[1..] {
        var k :| 0 <= k < |active| && active[k] == r;
        assert ids[1..][k] == r.id;
      }
    }
    ids
  }

  // ---------------------------------------------------------------------
  // Submission

  predicate CanSubmit(rows: seq<Row>, paymentMethod: string)
  {
    paymentMethod != "" && forall i :: 0 <= i < |rows| ==> rows[i].productId != ""
  }

  /** `salesReps.find((r) => r.id === selectedRepId)`, over every rep, active or not. */
  function SelectedRep(reps: seq<SalesRep>, selectedRepId: string): Option<SalesRep>
  {
    Find(reps, (r: SalesRep) => r.id, selectedRepId)
  }

  function ToSaleItem(r: Row): SaleItem
  {
    SaleItem(r.productId, r.productName, r.quantity, r.price, r.quantity * r.price)
  }

  function ItemTotal(it: SaleItem): int
  {
    it.total
  }

  /** `selectedRep?.id || "owner"` and `selectedRep?.name || "Owner"`, auto-approved. */
  function Payload(rows: seq<Row>, paymentMethod: string, reps: seq<SalesRep>, selectedRepId: string): SaleDraft
  {
    var rep := SelectedRep(reps, selectedRepId);
    SaleDraft(Map(rows, ToSaleItem), Total(rows), paymentMethod, ActorId(rep), ActorName(rep), Approved)
  }

  /** The owner's sale is approved; it is in the chosen rep's name when some
      rep has that id (and a non-empty id and name), and in the owner's
      otherwise; its total is the sum of its line totals. */
  lemma PayloadMeaning(rows: seq<Row>, paymentMethod: string, reps: seq<SalesRep>, selectedRepId: string)
    ensures var d := Payload(rows, paymentMethod, reps, selectedRepId);
            && d.status == Approved
            && d.paymentMethod == paymentMethod
            && |d.items| == |rows|
            && (forall i :: 0 <= i < |rows| ==>
                  d.items[i].productId == rows[i].productId && d.items[i].quantity == rows[i].quantity
                  && d.items[i].unitPrice == rows[i].price && d.items[i].total == rows[i].quantity * rows[i].price)
            && d.totalAmount == Sum(d.items, ItemTotal)
            && ((forall i :: 0 <= i < |reps| ==> reps[i].id != selectedRepId) ==>
                  d.salesRepId == "owner" && d.salesRepName == "Owner")
            && ((exists i :: 0 <= i < |reps| && reps[i].id == selectedRepId) && selectedRepId != "" ==>
                  d.salesRepId == selectedRepId)
            && (forall i :: (0 <= i < |reps| && reps[i].id == selectedRepId && reps[i].name != ""
                             && forall j :: 0 <= j < i ==> reps[j].id != selectedRepId) ==>
                  d.salesRepName == reps[i].name)
  {
    SumMap(rows, ToSaleItem, ItemTotal, LineTotal);
  }

  /** A sale with no matching rep goes to "owner", and with no rep of that id
      no rep's counters move. */
  lemma OwnerSaleCreditsNoRep(rows: seq<Row>, paymentMethod: string, st: StoreOps.StoreState,
                              selectedRepId: string, stamp: string, now: int)
    requires forall i :: 0 <= i < |st.salesReps| ==> st.salesReps[i].id != selectedRepId && st.salesReps[i].id != "owner"
    requires StoreOps.SaleProductsExist(st.products, Payload(rows, paymentMethod, st.salesReps, selectedRepId).items)
    ensures StoreOps.RecordSale(st, Payload(rows, paymentMethod, st.salesReps, selectedRepId), stamp, now).salesReps
            == st.salesReps
  {
    var d := Payload(rows, paymentMethod, st.salesReps, selectedRepId);
    PayloadMeaning(rows, paymentMethod, st.salesReps, selectedRepId);
    StoreProps.RecordSaleCredits(st, d, stamp, now);
  }

  /** Unlike the rep's page, nothing keeps a product off a second row, and
      the store then takes only the first row's quantity off its stock. */
  lemma SameProductTwiceDeductsOnce(st: StoreOps.StoreState, paymentMethod: string, selectedRepId: string,
                                    stamp: string, now: int, j: nat, q1: int, q2: int)
    requires j < |st.products|
    ensures var p := st.products[j];
            var rows := [Row("1", p.id, p.name, q1, p.sellingPrice), Row("2", p.id, p.name, q2, p.sellingPrice)];
            var d := Payload(rows, paymentMethod, st.salesReps, selectedRepId);
            && StoreOps.SaleProductsExist(st.products, d.items)
            && StoreOps.RecordSale(st, d, stamp, now).products[j].quantity == p.quantity - q1
  {
    var p := st.products[j];
    var rows := [Row("1", p.id, p.name, q1, p.sellingPrice), Row("2", p.id, p.name, q2, p.sellingPrice)];
    var d := Payload(rows, paymentMethod, st.salesReps, selectedRepId);
    assert StoreOps.HasProduct(st.products, d.items[0].productId);
    StoreProps.DuplicateItemsDeductOnce(st, d, stamp, now, j);
  }

  // ---------------------------------------------------------------------
  // The form

  class RecordSaleForm {
    var items: seq<Row>
    var paymentMethod: string
    var selectedRepId: string

    constructor ()
      ensures items == InitialRows() && paymentMethod == "" && selectedRepId == ""
    {
      items := InitialRows();
      paymentMethod := "";
      selectedRepId := "";
    }

    method AddItem(newId: string)
      modifies this
      ensures items == AfterAddItem(old(items), newId)
      ensures paymentMethod == old(paymentMethod) && selectedRepId == old(selectedRepId)
    {
      items := items + [BlankRow(newId)];
    }

    method RemoveItem(id: string)
      modifies this
      ensures items == AfterRemoveItem(old(items), id)
      ensures paymentMethod == old(paymentMethod) && selectedRepId == old(selectedRepId)
    {
      if |items| > 1 {
        items := Filter(items, NotId(id));
      }
    }

    method UpdateItem(id: string, productId: string, products: seq<Product>)
      modifies this
      ensures items == AfterUpdateItem(old(items), products, id, productId)
      ensures paymentMethod == old(paymentMethod) && selectedRepId == old(selectedRepId)
    {
      var product := StoreOps.FindProduct(products, productId);
      if product.Some? {
        items := MapWhere(items, HasId(id), Picked(productId, product.value));
      }
    }

    /** The quantity field passes `Number.parseInt(value) || 1`. */
    method UpdateQuantity(id: string, parsed: Option<int>)
      modifies this
      ensures items == AfterUpdateQuantity(old(items), id, OrOne(parsed))
      ensures paymentMethod == old(paymentMethod) && selectedRepId == old(selectedRepId)
    {
      var quantity := if parsed.Some? && parsed.value != 0 then parsed.value else 1;
      items := MapWhere(items, HasId(id), WithQuantity(quantity));
    }

    /** Submit: ignored unless the guard holds; otherwise records the sale and
        reports that the form closes (`onClose`). The form is shown only
        while the store has products, and the rows' products must still be
        in it. */
    method HandleSubmit(store: DomainStore.Store, stamp: string, now: int) returns (closed: bool)
      requires |store.products| > 0
      requires CanSubmit(items, paymentMethod) ==>
                 StoreOps.SaleProductsExist(store.products, Payload(items, paymentMethod, store.salesReps, selectedRepId).items)
      modifies store
      ensures closed == CanSubmit(items, paymentMethod)
      ensures !closed ==> store.State() == old(store.State())
      ensures closed ==>
                store.State() == StoreOps.RecordSale(old(store.State()),
                                   Payload(items, paymentMethod, old(store.salesReps), selectedRepId), stamp, now)
    {
      if paymentMethod == "" || exists i :: 0 <= i < |items| && items[i].productId == "" {
        return false;
      }
      store.RecordSale(Payload(items, paymentMethod, store.salesReps, selectedRepId), stamp, now);
      closed := true;
    }
  }
}
