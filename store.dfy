/** The store object: five collections and the current user, each replaced
    wholesale by the operations, as `set` does. Every method's new state is
    the corresponding transition of `StoreOps` applied to the old state, so
    everything proved in `StoreProps` holds of the object. */
module DomainStore {
  import opened Seqs
  import opened Domain
  import StoreOps

  class Store {
    var products: seq<Product>
    var sales: seq<Sale>
    var stockLogs: seq<StockLog>
    var salesReps: seq<SalesRep>
    var activities: seq<Activity>
    var currentUser: Option<SalesRep>

    function State(): StoreOps.StoreState
      reads this
    {
      StoreOps.StoreState(products, sales, stockLogs, salesReps, activities, currentUser)
    }

    constructor ()
      ensures State() == StoreOps.Initial()
    {
      products, sales, stockLogs, salesReps, activities := [], [], [], [], [];
      currentUser := None;
    }

    method SetCurrentUser(rep: Option<SalesRep>, stamp: string, now: int)
      modifies this
      ensures State() == StoreOps.SetCurrentUser(old(State()), rep, stamp, now)
    {
      currentUser := rep;
      if rep.Some? {
        activities := [StoreOps.LoginEntry(rep.value, stamp, now)] + activities;
      }
    }

    method AddProduct(d: ProductDraft, stamp: string, now: int)
      modifies this
      ensures State() == StoreOps.AddProduct(old(State()), d, stamp, now)
    {
      products := products + [StoreOps.ProductFromDraft(d, stamp, now)];
      activities := [StoreOps.ProductAddedEntry(d, stamp, now)] + activities;
    }

    method UpdateProduct(id: string, updates: ProductPatch, now: int)
      modifies this
      ensures State() == StoreOps.UpdateProduct(old(State()), id, updates, now)
    {
      products := StoreOps.UpdatedProducts(products, id, updates, now);
    }

    method DeleteProduct(id: string)
      modifies this
      ensures State() == StoreOps.DeleteProduct(old(State()), id)
    {
      products := StoreOps.WithoutProduct(products, id);
    }

    method AddStock(productId: string, quantity: int, note: Option<string>, stamp: string, now: int)
      modifies this
      ensures State() == StoreOps.AddStock(old(State()), productId, quantity, note, stamp, now)
    {
      var found := StoreOps.FindProduct(products, productId);
      if found.None? {
        return;
      }
      var product := found.value;
      var log := StoreOps.StockAddedLog(product, quantity, note, currentUser, stamp, now);
      var activity := StoreOps.StockAddedEntry(product, quantity, currentUser, stamp, now);
      products := StoreOps.Restocked(products, productId, quantity, now);
      stockLogs := [log] + stockLogs;
      activities := [activity] + activities;
    }

    method RecordSale(sale: SaleDraft, stamp: string, now: int)
      requires StoreOps.SaleProductsExist(products, sale.items)
      modifies this
      ensures State() == StoreOps.RecordSale(old(State()), sale, stamp, now)
    {
      var newSale := StoreOps.SaleFromDraft(sale, stamp, now);
      var newProducts := StoreOps.AfterSale(products, sale.items, now);
      var newLogs := StoreOps.SaleLogs(products, sale, stamp, now);
      var activity := StoreOps.SaleEntry(sale, stamp, now);
      var newReps := StoreOps.Credited(salesReps, sale.salesRepId, sale.totalAmount);
      products := newProducts;
      sales := [newSale] + sales;
      stockLogs := newLogs + stockLogs;
      activities := [activity] + activities;
      salesReps := newReps;
    }

    method ApproveSale(saleId: string, stamp: string, now: int)
      modifies this
      ensures State() == StoreOps.ApproveSale(old(State()), saleId, stamp, now)
    {
      var found := StoreOps.FindSale(sales, saleId);
      sales := StoreOps.WithStatus(sales, saleId, Approved);
      if found.Some? {
        activities := [StoreOps.ApprovalEntry(found.value, stamp, now)] + activities;
      }
    }

    method DisputeSale(saleId: string, stamp: string, now: int)
      modifies this
      ensures State() == StoreOps.DisputeSale(old(State()), saleId, stamp, now)
    {
      var found := StoreOps.FindSale(sales, saleId);
      if found.Some? {
        var sale := found.value;
        products := StoreOps.AfterDispute(products, sale.items, now);
        salesReps := StoreOps.Debited(salesReps, sale.salesRepId, sale.totalAmount);
        sales := StoreOps.WithStatus(sales, saleId, Disputed);
        activities := [StoreOps.DisputeEntry(sale, stamp, now)] + activities;
      }
    }

    method AddActivity(d: ActivityDraft, stamp: string, now: int)
      modifies this
      ensures State() == StoreOps.AddActivity(old(State()), d, stamp, now)
    {
      activities := [Activity(stamp, d.kind, d.message, d.userId, d.userName, d.amount, now)] + activities;
    }

    method AddSalesRep(d: SalesRepDraft, stamp: string, now: int)
      modifies this
      ensures State() == StoreOps.AddSalesRep(old(State()), d, stamp, now)
    {
      salesReps := salesReps + [StoreOps.SalesRepFromDraft(d, stamp, now)];
      activities := [StoreOps.RepAddedEntry(d, stamp, now)] + activities;
    }

    method UpdateSalesRep(id: string, updates: SalesRepPatch)
      modifies this
      ensures State() == StoreOps.UpdateSalesRep(old(State()), id, updates)
    {
      salesReps := StoreOps.UpdatedReps(salesReps, id, updates);
    }

    method DeleteSalesRep(id: string)
      modifies this
      ensures State() == StoreOps.DeleteSalesRep(old(State()), id)
    {
      salesReps := StoreOps.WithoutRep(salesReps, id);
    }
  }
}
