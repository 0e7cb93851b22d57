/** The rep's sale-entry page: a list of line-item rows edited one action at
    a time, the running total, the products a row may still choose, and the
    submission that records a pending sale for the logged-in rep and then
    clears the form. */
module RepRecordSale {
  import opened Seqs
  import opened Domain
  import Text
  import StoreOps
  import DomainStore
  import StoreProps

  /** One line-item row; `maxQuantity` is the product's stock at the moment
      it was chosen. */
  datatype Row = Row(id: string, productId: string, productName: string,
                     quantity: int, price: int, maxQuantity: int)

  /** A new row: no product yet, quantity 1. */
  function BlankRow(id: string): Row
  {
    Row(id, "", "", 1, 0, 0)
  }

  /** The list the page starts with and returns to after a sale: one blank row with id "1". */
  function InitialRows(): (rows: seq<Row>)
    ensures Wellformed(rows)
    ensures |rows| == 1 && rows[0].productId == "" && rows[0].quantity == 1
  {
    [BlankRow("1")]
  }

  function RowId(r: Row): string
  {
    r.id
  }

  function HasId(id: string): Row -> bool
  {
    (r: Row) => r.id == id
  }

  function NotId(id: string): Row -> bool
  {
    (r: Row) => r.id != id
  }

  // ---------------------------------------------------------------------
  // The shape every reachable list keeps

  predicate DistinctIds(rows: seq<Row>)
  {
    forall a, b :: 0 <= a < b < |rows| ==> rows[a].id != rows[b].id
  }

  /** No product is chosen on two rows (blank rows aside). */
  predicate DistinctProducts(rows: seq<Row>)
  {
    forall a, b :: 0 <= a < b < |rows| && rows[a].productId != "" ==> rows[a].productId != rows[b].productId
  }

  predicate QuantitiesPositive(rows: seq<Row>)
  {
    forall i :: 0 <= i < |rows| ==> rows[i].quantity >= 1
  }

  predicate Wellformed(rows: seq<Row>)
  {
    |rows| >= 1 && DistinctIds(rows) && DistinctProducts(rows) && QuantitiesPositive(rows)
  }

  // ---------------------------------------------------------------------
  // The four row actions

  /** `addItem`: a blank row at the end, with the id the caller supplies. */
  function AfterAddItem(rows: seq<Row>, newId: string): seq<Row>
  {
    rows + [BlankRow(newId)]
  }

  /** `removeItem`: drop every row with the id, but only while there are two or more rows. */
  function AfterRemoveItem(rows: seq<Row>, id: string): seq<Row>
  {
    if |rows| > 1 then Filter(rows, NotId(id)) else rows
  }

  /** The row once `p` is chosen for it: its quantity stays as it was. */
  function Picked(productId: string, p: Product): Row -> Row
  {
    (r: Row) => r.(productId := productId, productName := p.name, price := p.sellingPrice, maxQuantity := p.quantity)
  }

  /** `updateItem`: an unknown product changes nothing; otherwise the rows
      with the id take the first matching product's name, price and stock. */
  function AfterUpdateItem(rows: seq<Row>, products: seq<Product>, id: string, productId: string): seq<Row>
  {
    match StoreOps.FindProduct(products, productId)
    case None => rows
    case Some(p) => MapWhere(rows, HasId(id), Picked(productId, p))
  }

  function WithQuantity(q: int): Row -> Row
  {
    (r: Row) => r.(quantity := q)
  }

  /** `updateQuantity`: applies only when the first row with the id exists and
      `1 <= q <= ` its `maxQuantity`. */
  function AfterUpdateQuantity(rows: seq<Row>, id: string, q: int): seq<Row>
  {
    match Find(rows, RowId, id)
    case None => rows
    case Some(item) =>
      if q <= item.maxQuantity && q >= 1 then MapWhere(rows, HasId(id), WithQuantity(q)) else rows
  }

  /** Adding a row with a fresh id keeps the list well formed, leaves the
      earlier rows alone and adds nothing to the total. */
  lemma AddItemKeepsWellformed(rows: seq<Row>, newId: string)
    requires Wellformed(rows)
    requires forall i :: 0 <= i < |rows| ==> rows[i].id != newId
    ensures Wellformed(AfterAddItem(rows, newId))
    ensures AfterAddItem(rows, newId)[..|rows|] == rows
    ensures Total(AfterAddItem(rows, newId)) == Total(rows)
  {
    var r := AfterAddItem(rows, newId);
    assert r[..|r| - 1] == rows;
  }

  /** With distinct ids `removeItem` drops exactly the row with the id, or
      nothing when no row has it or only one row is left. */
  lemma RemoveItemExactly(rows: seq<Row>, id: string)
    requires DistinctIds(rows)
    ensures match IndexOf(rows, RowId, id)
            case None => AfterRemoveItem(rows, id) == rows
            case Some(k) => AfterRemoveItem(rows, id) == if |rows| > 1 then rows[..k] + rows[k + 1..] else rows
  {
    match IndexOf(rows, RowId, id)
    case None =>
      FilterAll(rows, NotId(id));
    case Some(k) =>
      FilterDropsOne(rows, NotId(id), k);
  }

  /** Dropping one row keeps the list well formed as long as one row remains. */
  lemma RemoveAtKeepsWellformed(rows: seq<Row>, k: nat)
    requires Wellformed(rows) && |rows| > 1 && k < |rows|
    ensures Wellformed(rows[..k] + rows[k + 1..])
  {
    var r := rows[..k] + rows[k + 1..];
    assert forall i :: 0 <= i < |r| ==> r[i] == if i < k then rows[i] else rows[i + 1];
  }

  /** Dropping one row lowers the total by that row's line total. */
  lemma RemoveAtTotal(rows: seq<Row>, k: nat)
    requires k < |rows|
    ensures Total(rows[..k] + rows[k + 1..]) == Total(rows) - LineTotal(rows[k])
  {
    assert rows == rows[..k] + [rows[k]] + rows[k + 1..];
    SumAppend(rows[..k] + [rows[k]], rows[k + 1..], LineTotal);
    SumAppend(rows[..k], [rows[k]], LineTotal);
    SumAppend(rows[..k], rows[k + 1..], LineTotal);
    assert [rows[k]][..0] == [];
  }

  /** `removeItem` never empties a well-formed list. */
  lemma RemoveItemKeepsWellformed(rows: seq<Row>, id: string)
    requires Wellformed(rows)
    ensures Wellformed(AfterRemoveItem(rows, id))
    ensures |AfterRemoveItem(rows, id)| >= |rows| - 1
  {
    RemoveItemExactly(rows, id);
    match IndexOf(rows, RowId, id)
    case None =>
    case Some(k) =>
      if |rows| > 1 {
        RemoveAtKeepsWellformed(rows, k);
      }
  }

  /** The guard counts rows, not ids: two rows sharing an id both go, and the
      list can empty. The page's ids ("1" and `Date.now()` strings) keep rows
      apart. */
  lemma RemoveItemWithSharedIdEmpties()
    ensures AfterRemoveItem([BlankRow("1"), BlankRow("1")], "1") == []
  {
    var rows := [BlankRow("1"), BlankRow("1")];
    assert rows[..1] == [BlankRow("1")];
    assert [BlankRow("1")][..0] == [];
  }

  /** `updateItem` with an unknown product changes nothing; otherwise each row
      with the id takes the product id, the name, the selling price as price
      and the stock as `maxQuantity`, keeping its quantity, and every other
      row is unchanged. */
  lemma UpdateItemMeaning(rows: seq<Row>, products: seq<Product>, id: string, productId: string)
    ensures !StoreOps.HasProduct(products, productId) ==> AfterUpdateItem(rows, products, id, productId) == rows
    ensures StoreOps.HasProduct(products, productId) ==>
              var p := StoreOps.FindProduct(products, productId).value;
              var r := AfterUpdateItem(rows, products, id, productId);
              && p in products && p.id == productId
              && |r| == |rows|
              && (forall i :: 0 <= i < |rows| && rows[i].id == id ==>
                    r[i] == Row(id, productId, p.name, rows[i].quantity, p.sellingPrice, p.quantity))
              && (forall i :: 0 <= i < |rows| && rows[i].id != id ==> r[i] == rows[i])
  {
    if StoreOps.HasProduct(products, productId) {
      StoreOps.FindProductPresent(products, productId);
    }
  }

  /** Choosing a product for a row whose quantity is above that product's
      stock keeps the quantity: the `maxQuantity` bound is enforced by
      `updateQuantity` alone. */
  lemma PickingKeepsQuantityAboveStock(rows: seq<Row>, products: seq<Product>, id: string, productId: string, k: nat)
    requires k < |rows| && rows[k].id == id
    requires StoreOps.HasProduct(products, productId)
    requires rows[k].quantity > StoreOps.FindProduct(products, productId).value.quantity
    ensures var r := AfterUpdateItem(rows, products, id, productId);
            r[k].quantity == rows[k].quantity && r[k].quantity > r[k].maxQuantity
  {
    UpdateItemMeaning(rows, products, id, productId);
  }

  /** `updateQuantity` applies exactly when the first row with the id has
      `1 <= q <= maxQuantity`; then the rows with the id take `q` and nothing
      else changes, and otherwise the list is unchanged. */
  lemma UpdateQuantityMeaning(rows: seq<Row>, id: string, q: int)
    ensures match IndexOf(rows, RowId, id)
            case None => AfterUpdateQuantity(rows, id, q) == rows
            case Some(k) =>
              if 1 <= q <= rows[k].maxQuantity then
                var r := AfterUpdateQuantity(rows, id, q);
                && |r| == |rows|
                && (forall i :: 0 <= i < |rows| ==> r[i] == if rows[i].id == id then rows[i].(quantity := q) else rows[i])
              else AfterUpdateQuantity(rows, id, q) == rows
  {
  }

  /** With distinct ids a quantity that `updateQuantity` changes lands in
      `1 ..= maxQuantity` of its own row. */
  lemma UpdateQuantityWithinStock(rows: seq<Row>, id: string, q: int)
    requires DistinctIds(rows)
    ensures var r := AfterUpdateQuantity(rows, id, q);
            forall i :: 0 <= i < |rows| && r[i].quantity != rows[i].quantity ==>
              1 <= r[i].quantity <= r[i].maxQuantity
  {
    UpdateQuantityMeaning(rows, id, q);
  }

  lemma UpdateQuantityKeepsWellformed(rows: seq<Row>, id: string, q: int)
    requires Wellformed(rows)
    ensures Wellformed(AfterUpdateQuantity(rows, id, q))
  {
    UpdateQuantityMeaning(rows, id, q);
  }

  // ---------------------------------------------------------------------
  // The total and the products a row may choose

  function LineTotal(r: Row): int
  {
    r.quantity * r.price
  }

  /** `items.reduce((sum, item) => sum + item.quantity * item.price, 0)`. */
  function Total(rows: seq<Row>): int
  {
    Sum(rows, LineTotal)
  }

  function ProductIdOf(r: Row): string
  {
    r.productId
  }

  /** The product ids on every other row; a blank row contributes "". */
  function SelectedIds(rows: seq<Row>, currentItemId: string): seq<string>
  {
    Map(Filter(rows, NotId(currentItemId)), ProductIdOf)
  }

  predicate Selectable(p: Product, selectedIds: seq<string>)
  {
    p.id !in selectedIds && p.quantity > 0
  }

  function SelectableAmong(selectedIds: seq<string>): Product -> bool
  {
    (p: Product) => Selectable(p, selectedIds)
  }

  /** `getAvailableProducts(currentItemId)`: in stock, not chosen on another
      row, and named like the search query. */
  function AvailableProducts(rows: seq<Row>, products: seq<Product>, currentItemId: string,
                             searchQuery: string): seq<Product>
  {
    Filter(Filter(products, SelectableAmong(SelectedIds(rows, currentItemId))), NameMatches(searchQuery))
  }

  lemma SelectedIdsMeaning(rows: seq<Row>, currentItemId: string, productId: string)
    ensures productId in SelectedIds(rows, currentItemId) <==>
              exists i :: 0 <= i < |rows| && rows[i].id != currentItemId && rows[i].productId == productId
  {
    var others := Filter(rows, NotId(currentItemId));
    if productId in SelectedIds(rows, currentItemId) {
      var j :| 0 <= j < |others| && SelectedIds(rows, currentItemId)[j] == productId;
      var i :| 0 <= i < |rows| && rows[i] == others[j];
      assert rows[i].id != currentItemId && rows[i].productId == productId;
    }
    if exists i :: 0 <= i < |rows| && rows[i].id != currentItemId && rows[i].productId == productId {
      var i :| 0 <= i < |rows| && rows[i].id != currentItemId && rows[i].productId == productId;
      assert rows[i] in others;
      var j :| 0 <= j < |others| && others[j] == rows[i];
      assert SelectedIds(rows, currentItemId)[j] == productId;
    }
  }

  /** A product is offered to a row exactly when it is in the store, in
      stock, named like the query and on no other row. */
  lemma AvailableProductsExactly(rows: seq<Row>, products: seq<Product>, currentItemId: string,
                                 searchQuery: string, p: Product)
    ensures p in AvailableProducts(rows, products, currentItemId, searchQuery) <==>
              && p in products
              && p.quantity > 0
              && Text.IncludesIgnoringCase(p.name, searchQuery)
              && (forall i :: 0 <= i < |rows| && rows[i].id != currentItemId ==> rows[i].productId != p.id)
  {
    SelectedIdsMeaning(rows, currentItemId, p.id);
    var inStock := Filter(products, SelectableAmong(SelectedIds(rows, currentItemId)));
    var avail := AvailableProducts(rows, products, currentItemId, searchQuery);
    if p in avail {
      var j :| 0 <= j < |avail| && avail[j] == p;
      var k :| 0 <= k < |inStock| && inStock[k] == p;
    }
    if p in products && Selectable(p, SelectedIds(rows, currentItemId)) && Text.IncludesIgnoringCase(p.name, searchQuery) {
      var j :| 0 <= j < |products| && products[j] == p;
      assert p in inStock;
      var k :| 0 <= k < |inStock| && inStock[k] == p;
    }
  }

  /** The product `productId` is one the row's list offers. */
  predicate Offered(rows: seq<Row>, products: seq<Product>, id: string, searchQuery: string, productId: string)
  {
    exists p :: p in AvailableProducts(rows, products, id, searchQuery) && p.id == productId
  }

  /** Rows filled in through the offered lists never share a product. */
  lemma PickingOfferedKeepsWellformed(rows: seq<Row>, products: seq<Product>, id: string,
                                      searchQuery: string, productId: string)
    requires Wellformed(rows)
    requires Offered(rows, products, id, searchQuery, productId)
    ensures Wellformed(AfterUpdateItem(rows, products, id, productId))
  {
    var p :| p in AvailableProducts(rows, products, id, searchQuery) && p.id == productId;
    AvailableProductsExactly(rows, products, id, searchQuery, p);
    assert StoreOps.HasProduct(products, productId);
    UpdateItemMeaning(rows, products, id, productId);
    var q := StoreOps.FindProduct(products, productId).value;
    PickingUnusedKeepsWellformed(rows, id, productId, q);
  }

  /** Setting rows to a product no other row holds keeps the rows well formed. */
  lemma PickingUnusedKeepsWellformed(rows: seq<Row>, id: string, productId: string, p: Product)
    requires Wellformed(rows)
    requires forall i :: 0 <= i < |rows| && rows[i].id != id ==> rows[i].productId != productId
    ensures Wellformed(MapWhere(rows, HasId(id), Picked(productId, p)))
  {
    var r := MapWhere(rows, HasId(id), Picked(productId, p));
    assert forall i :: 0 <= i < |rows| ==> r[i].id == rows[i].id && r[i].quantity == rows[i].quantity;
    forall a, b | 0 <= a < b < |r| && r[a].productId != "" ensures r[a].productId != r[b].productId {
      assert rows[a].id != rows[b].id;
    }
  }

  // ---------------------------------------------------------------------
  // Submission

  /** The submit guard: a payment method and a product on every row. */
  predicate CanSubmit(rows: seq<Row>, paymentMethod: string)
  {
    paymentMethod != "" && forall i :: 0 <= i < |rows| ==> rows[i].productId != ""
  }

  function ToSaleItem(r: Row): SaleItem
  {
    SaleItem(r.productId, r.productName, r.quantity, r.price, r.quantity * r.price)
  }

  function ItemTotal(it: SaleItem): int
  {
    it.total
  }

  /** The sale handed to `recordSale`: one line item per row, the form's
      total, pending, in the logged-in rep's name. */
  function Payload(rows: seq<Row>, paymentMethod: string, user: SalesRep): SaleDraft
  {
    SaleDraft(Map(rows, ToSaleItem), Total(rows), paymentMethod, user.id, user.name, Pending)
  }

  /** The submitted sale is pending and attributed to the user; its line
      items follow the rows with line total quantity × price, and its total
      amount is the sum of those line totals. */
  lemma PayloadMeaning(rows: seq<Row>, paymentMethod: string, user: SalesRep)
    ensures var d := Payload(rows, paymentMethod, user);
            && d.status == Pending
            && d.salesRepId == user.id && d.salesRepName == user.name
            && d.paymentMethod == paymentMethod
            && |d.items| == |rows|
            && (forall i :: 0 <= i < |rows| ==>
                  && d.items[i].productId == rows[i].productId
                  && d.items[i].productName == rows[i].productName
                  && d.items[i].quantity == rows[i].quantity
                  && d.items[i].unitPrice == rows[i].price
                  && d.items[i].total == rows[i].quantity * rows[i].price)
            && d.totalAmount == Sum(d.items, ItemTotal)
  {
    SumMap(rows, ToSaleItem, ItemTotal, LineTotal);
  }

  /** Because no two rows share a product, recording the sale takes every
      row's quantity off its product's stock (the store deducts only the
      first line item for each product). */
  lemma EveryRowDeducted(rows: seq<Row>, paymentMethod: string, user: SalesRep,
                         st: StoreOps.StoreState, stamp: string, now: int, k: nat, j: nat)
    requires Wellformed(rows) && CanSubmit(rows, paymentMethod)
    requires StoreOps.SaleProductsExist(st.products, Payload(rows, paymentMethod, user).items)
    requires k < |rows| && j < |st.products| && st.products[j].id == rows[k].productId
    ensures StoreOps.RecordSale(st, Payload(rows, paymentMethod, user), stamp, now).products[j].quantity
            == st.products[j].quantity - rows[k].quantity
  {
    var d := Payload(rows, paymentMethod, user);
    PayloadMeaning(rows, paymentMethod, user);
    assert StoreOps.FirstItemFor(d.items, st.products[j].id) == Some(d.items[k]);
    StoreProps.RecordSaleEffects(st, d, stamp, now);
  }

  // ---------------------------------------------------------------------
  // The page

  class RecordSalePage {
    var items: seq<Row>
    var paymentMethod: string
    var searchQuery: string

    constructor ()
      ensures items == InitialRows() && paymentMethod == "" && searchQuery == ""
    {
      items := InitialRows();
      paymentMethod := "";
      searchQuery := "";
    }

    /** The list a row's product picker shows. */
    function GetAvailableProducts(products: seq<Product>, currentItemId: string): seq<Product>
      reads this
    {
      AvailableProducts(items, products, currentItemId, searchQuery)
    }

    method AddItem(newId: string)
      modifies this
      ensures items == AfterAddItem(old(items), newId)
      ensures paymentMethod == old(paymentMethod) && searchQuery == old(searchQuery)
      ensures old(Wellformed(items)) && (forall i :: 0 <= i < |old(items)| ==> old(items)[i].id != newId) ==> Wellformed(items)
    {
      if Wellformed(items) && forall i :: 0 <= i < |items| ==> items[i].id != newId {
        AddItemKeepsWellformed(items, newId);
      }
      items := items + [BlankRow(newId)];
    }

    method RemoveItem(id: string)
      modifies this
      ensures items == AfterRemoveItem(old(items), id)
      ensures paymentMethod == old(paymentMethod) && searchQuery == old(searchQuery)
      ensures old(Wellformed(items)) ==> Wellformed(items)
    {
      if Wellformed(items) {
        RemoveItemKeepsWellformed(items, id);
      }
      if |items| > 1 {
        items := Filter(items, NotId(id));
      }
    }

    method UpdateItem(id: string, productId: string, products: seq<Product>)
      modifies this
      ensures items == AfterUpdateItem(old(items), products, id, productId)
      ensures paymentMethod == old(paymentMethod) && searchQuery == old(searchQuery)
      ensures old(Wellformed(items)) && old(Offered(items, products, id, searchQuery, productId)) ==> Wellformed(items)
    {
      if Wellformed(items) && Offered(items, products, id, searchQuery, productId) {
        PickingOfferedKeepsWellformed(items, products, id, searchQuery, productId);
      }
      var product := StoreOps.FindProduct(products, productId);
      if product.Some? {
        items := MapWhere(items, HasId(id), Picked(productId, product.value));
      }
    }

    method UpdateQuantity(id: string, quantity: int)
      modifies this
      ensures items == AfterUpdateQuantity(old(items), id, quantity)
      ensures paymentMethod == old(paymentMethod) && searchQuery == old(searchQuery)
      ensures old(Wellformed(items)) ==> Wellformed(items)
    {
      if Wellformed(items) {
        UpdateQuantityKeepsWellformed(items, id, quantity);
      }
      var item := Find(items, RowId, id);
      if item.Some? && quantity <= item.value.maxQuantity && quantity >= 1 {
        items := MapWhere(items, HasId(id), WithQuantity(quantity));
      }
    }

    /** Submit: ignored unless the guard holds; otherwise records the sale in
        the store and resets the form. The page exists only with a user
        logged in, and the rows' products must still be in the store. */
    method HandleSubmit(store: DomainStore.Store, stamp: string, now: int)
      requires store.currentUser.Some?
      requires CanSubmit(items, paymentMethod) ==>
                 StoreOps.SaleProductsExist(store.products, Payload(items, paymentMethod, store.currentUser.value).items)
      modifies this, store
      ensures searchQuery == old(searchQuery)
      ensures !old(CanSubmit(items, paymentMethod)) ==>
                items == old(items) && paymentMethod == old(paymentMethod) && store.State() == old(store.State())
      ensures old(CanSubmit(items, paymentMethod)) ==>
                && store.State() == StoreOps.RecordSale(old(store.State()),
                                      Payload(old(items), old(paymentMethod), old(store.currentUser.value)), stamp, now)
                && items == InitialRows() && paymentMethod == ""
    {
      if paymentMethod == "" || exists i :: 0 <= i < |items| && items[i].productId == "" {
        return;
      }
      var user := store.currentUser.value;
      store.RecordSale(Payload(items, paymentMethod, user), stamp, now);
      paymentMethod := "";
      items := InitialRows();
    }
  }
}
