/** What the store's operations promise: the effect of each on the
    collections it touches, the frames it leaves alone, the record/dispute
    round trip, and the invariants that hold over any run of operations. */
module StoreProps {
  import opened Seqs
  import opened Domain
  import opened StoreOps

  // ---------------------------------------------------------------------
  // addStock

  /** On a known product: every product with that id gains exactly `quantity`,
      one "add" log with the before and after levels of the first such product
      is prepended, one activity is prepended, and nothing else changes. */
  lemma AddStockOnKnownProduct(st: StoreState, id: string, quantity: int, note: Option<string>, stamp: string, now: int)
    requires HasProduct(st.products, id)
    ensures var st' := AddStock(st, id, quantity, note, stamp, now);
            var before := FindProduct(st.products, id).value;
            && |st'.products| == |st.products|
            && (forall i :: 0 <= i < |st.products| && st.products[i].id == id ==>
                  st'.products[i] == st.products[i].(quantity := st.products[i].quantity + quantity, updatedAt := now))
            && (forall i :: 0 <= i < |st.products| && st.products[i].id != id ==> st'.products[i] == st.products[i])
            && |st'.stockLogs| == |st.stockLogs| + 1
            && st'.stockLogs[1..] == st.stockLogs
            && st'.stockLogs[0].kind == AddLog
            && st'.stockLogs[0].productId == id
            && st'.stockLogs[0].quantity == quantity
            && st'.stockLogs[0].previousQuantity == before.quantity
            && st'.stockLogs[0].newQuantity == before.quantity + quantity
            && st'.stockLogs[0].note == note
            && st'.stockLogs[0].userId == ActorId(st.currentUser)
            && |st'.activities| == |st.activities| + 1
            && st'.activities[1..] == st.activities
            && st'.activities[0].kind == StockActivity
            && st'.sales == st.sales && st'.salesReps == st.salesReps && st'.currentUser == st.currentUser
  {
    FindProductPresent(st.products, id);
  }

  /** On an unknown product id nothing changes at all. */
  lemma AddStockOnUnknownProduct(st: StoreState, id: string, quantity: int, note: Option<string>, stamp: string, now: int)
    requires !HasProduct(st.products, id)
    ensures AddStock(st, id, quantity, note, stamp, now) == st
  {
  }

  // ---------------------------------------------------------------------
  // recordSale

  /** The sale, one log per line item and one activity are prepended; each
      product loses the quantity of the FIRST line item naming it (later
      items for the same product are ignored), and other products keep
      theirs. Each log reports the level of its product before the sale. */
  lemma RecordSaleEffects(st: StoreState, sale: SaleDraft, stamp: string, now: int)
    requires SaleProductsExist(st.products, sale.items)
    ensures var st' := RecordSale(st, sale, stamp, now);
            var n := |sale.items|;
            && st'.sales == [SaleFromDraft(sale, stamp, now)] + st.sales
            && st'.sales[0].status == sale.status && st'.sales[0].id == stamp
            && |st'.stockLogs| == n + |st.stockLogs|
            && st'.stockLogs[n..] == st.stockLogs
            && (forall i :: 0 <= i < n ==>
                  && st'.stockLogs[i].kind == SaleLog
                  && st'.stockLogs[i].productId == sale.items[i].productId
                  && st'.stockLogs[i].quantity == sale.items[i].quantity
                  && st'.stockLogs[i].previousQuantity == FindProduct(st.products, sale.items[i].productId).value.quantity
                  && st'.stockLogs[i].newQuantity == st'.stockLogs[i].previousQuantity - sale.items[i].quantity
                  && st'.stockLogs[i].userId == sale.salesRepId)
            && |st'.activities| == |st.activities| + 1
            && st'.activities[1..] == st.activities
            && st'.activities[0].kind == SaleActivity
            && st'.activities[0].amount == Some(sale.totalAmount)
            && |st'.products| == |st.products|
            && (forall i :: 0 <= i < |st.products| ==>
                  match FirstItemFor(sale.items, st.products[i].id)
                  case Some(item) => st'.products[i].quantity == st.products[i].quantity - item.quantity
                  case None => st'.products[i] == st.products[i])
            && st'.currentUser == st.currentUser
  {
    var st' := RecordSale(st, sale, stamp, now);
    var n := |sale.items|;
    assert st'.stockLogs[n..] == st.stockLogs;
    forall i | 0 <= i < n
      ensures st'.stockLogs[i] == SaleLogFor(st.products, sale, sale.items[i], stamp, now)
    {
    }
  }

  /** Two line items for the same product: stock falls by the first item's
      quantity only, yet a log is written for each item. */
  lemma DuplicateItemsDeductOnce(st: StoreState, sale: SaleDraft, stamp: string, now: int, j: nat)
    requires SaleProductsExist(st.products, sale.items)
    requires |sale.items| == 2 && sale.items[0].productId == sale.items[1].productId
    requires j < |st.products| && st.products[j].id == sale.items[0].productId
    ensures var st' := RecordSale(st, sale, stamp, now);
            && st'.products[j].quantity == st.products[j].quantity - sale.items[0].quantity
            && |st'.stockLogs| == |st.stockLogs| + 2
            && st'.stockLogs[0].productId == st'.stockLogs[1].productId
  {
    assert FirstItemFor(sale.items, st.products[j].id) == Some(sale.items[0]);
  }

  /** Stock may go below zero: nothing checks the level before subtracting. */
  lemma SaleCanDriveStockNegative(st: StoreState, sale: SaleDraft, stamp: string, now: int, j: nat)
    requires SaleProductsExist(st.products, sale.items)
    requires |sale.items| > 0 && j < |st.products| && st.products[j].id == sale.items[0].productId
    requires sale.items[0].quantity > st.products[j].quantity
    ensures RecordSale(st, sale, stamp, now).products[j].quantity < 0
  {
    assert FirstItemFor(sale.items, st.products[j].id) == Some(sale.items[0]);
  }

  // ---------------------------------------------------------------------
  // Rep counters

  predicate CountersNonNegative(reps: seq<SalesRep>)
  {
    forall i :: 0 <= i < |reps| ==> reps[i].todaySales >= 0 && reps[i].totalSales >= 0
  }

  /** `recordSale` credits the matching rep(s) with the total, pending or not;
      a rep id that matches nobody (such as "owner") changes no rep. */
  lemma RecordSaleCredits(st: StoreState, sale: SaleDraft, stamp: string, now: int)
    requires SaleProductsExist(st.products, sale.items)
    ensures var reps := RecordSale(st, sale, stamp, now).salesReps;
            && |reps| == |st.salesReps|
            && (forall i :: 0 <= i < |reps| && st.salesReps[i].id == sale.salesRepId ==>
                  && reps[i].todaySales == st.salesReps[i].todaySales + sale.totalAmount
                  && reps[i].totalSales == st.salesReps[i].totalSales + sale.totalAmount
                  && reps[i] == st.salesReps[i].(todaySales := reps[i].todaySales, totalSales := reps[i].totalSales))
            && (forall i :: 0 <= i < |reps| && st.salesReps[i].id != sale.salesRepId ==> reps[i] == st.salesReps[i])
            && ((forall i :: 0 <= i < |st.salesReps| ==> st.salesReps[i].id != sale.salesRepId) ==> reps == st.salesReps)
  {
    var reps := RecordSale(st, sale, stamp, now).salesReps;
    if forall i :: 0 <= i < |st.salesReps| ==> st.salesReps[i].id != sale.salesRepId {
      assert forall i :: 0 <= i < |reps| ==> reps[i] == st.salesReps[i];
    }
  }

  /** `disputeSale` of a known sale debits the sale's rep, clamping each
      counter at zero, so the counters of that rep end non-negative. */
  lemma DisputeSaleDebits(st: StoreState, saleId: string, stamp: string, now: int)
    requires FindSale(st.sales, saleId).Some?
    ensures var sale := FindSale(st.sales, saleId).value;
            var reps := DisputeSale(st, saleId, stamp, now).salesReps;
            && |reps| == |st.salesReps|
            && (forall i :: 0 <= i < |reps| && st.salesReps[i].id == sale.salesRepId ==>
                  && reps[i].todaySales == ClampAtZero(st.salesReps[i].todaySales - sale.totalAmount)
                  && reps[i].totalSales == ClampAtZero(st.salesReps[i].totalSales - sale.totalAmount)
                  && reps[i].todaySales >= 0 && reps[i].totalSales >= 0)
            && (forall i :: 0 <= i < |reps| && st.salesReps[i].id != sale.salesRepId ==> reps[i] == st.salesReps[i])
  {
  }

  /** The operations keep rep counters non-negative when no sale carries a
      negative total and no update writes a negative counter. */
  predicate KeepsCountersNonNegative(op: Op)
  {
    && (op.RecordSaleOp? ==> op.sale.totalAmount >= 0)
    && (op.UpdateSalesRepOp? ==>
          && (op.repUpdates.todaySales.Some? ==> op.repUpdates.todaySales.value >= 0)
          && (op.repUpdates.totalSales.Some? ==> op.repUpdates.totalSales.value >= 0))
  }

  lemma CountersStayNonNegative(st: StoreState, op: Op, stamp: string, now: int)
    requires Completes(st, op) && KeepsCountersNonNegative(op)
    requires CountersNonNegative(st.salesReps)
    ensures CountersNonNegative(Apply(st, op, stamp, now).salesReps)
  {
    var after := Apply(st, op, stamp, now);
    match op
    case DeleteSalesRepOp(id) =>
      assert after == DeleteSalesRep(st, id);
      DeleteKeepsCounters(st, id);
    case AddSalesRepOp(d) =>
      assert after == AddSalesRep(st, d, stamp, now);
      AddKeepsCounters(st, d, stamp, now);
    case RecordSaleOp(sale) =>
      assert after == RecordSale(st, sale, stamp, now);
      RecordSaleCredits(st, sale, stamp, now);
    case DisputeSaleOp(id) =>
      assert after == DisputeSale(st, id, stamp, now);
      if FindSale(st.sales, id).Some? {
        DisputeSaleDebits(st, id, stamp, now);
      }
    case UpdateSalesRepOp(id, u) =>
      assert after == UpdateSalesRep(st, id, u);
      UpdateKeepsCounters(st, id, u);
    case _ =>
      RepsUntouched(st, op, stamp, now);
  }

  lemma DeleteKeepsCounters(st: StoreState, id: string)
    requires CountersNonNegative(st.salesReps)
    ensures CountersNonNegative(DeleteSalesRep(st, id).salesReps)
  {
    var reps := DeleteSalesRep(st, id).salesReps;
    forall i | 0 <= i < |reps|
      ensures reps[i].todaySales >= 0 && reps[i].totalSales >= 0
    {
      assert reps[i] in st.salesReps;
    }
  }

  lemma AddKeepsCounters(st: StoreState, d: SalesRepDraft, stamp: string, now: int)
    requires CountersNonNegative(st.salesReps)
    ensures CountersNonNegative(AddSalesRep(st, d, stamp, now).salesReps)
  {
  }

  lemma UpdateKeepsCounters(st: StoreState, id: string, u: SalesRepPatch)
    requires CountersNonNegative(st.salesReps)
    requires u.todaySales.Some? ==> u.todaySales.value >= 0
    requires u.totalSales.Some? ==> u.totalSales.value >= 0
    ensures CountersNonNegative(UpdateSalesRep(st, id, u).salesReps)
  {
  }

  /** Only the rep operations, `recordSale` and `disputeSale` touch the reps. */
  lemma RepsUntouched(st: StoreState, op: Op, stamp: string, now: int)
    requires Completes(st, op)
    requires !(op.DeleteSalesRepOp? || op.AddSalesRepOp? || op.RecordSaleOp? || op.DisputeSaleOp? || op.UpdateSalesRepOp?)
    ensures Apply(st, op, stamp, now).salesReps == st.salesReps
  {
  }

  /** Over any run whose steps keep the counters non-negative, they stay so. */
  lemma {:induction false} CountersNonNegativeOverRun(st: StoreState, steps: seq<Step>)
    requires CountersNonNegative(st.salesReps)
    requires forall i :: 0 <= i < |steps| ==> KeepsCountersNonNegative(steps[i].op)
    ensures CountersNonNegative(Run(st, steps).salesReps)
    decreases |steps|
  {
    if |steps| > 0 {
      var init := steps[..|steps| - 1];
      var last := steps[|steps| - 1];
      CountersNonNegativeOverRun(st, init);
      if Completes(Run(st, init), last.op) {
        CountersStayNonNegative(Run(st, init), last.op, last.stamp, last.now);
      }
    }
  }

  // ---------------------------------------------------------------------
  // The record / dispute round trip

  /** Recording a sale whose products all exist and then disputing it, with
      nothing in between, gives every product its old quantity back (products
      the sale does not name are untouched), leaves non-negative rep counters
      as they were, marks the sale disputed and keeps the sale's logs. */
  lemma RecordThenDisputeRestores(st: StoreState, sale: SaleDraft, stamp: string, now: int, stamp2: string, now2: int)
    requires SaleProductsExist(st.products, sale.items)
    requires CountersNonNegative(st.salesReps)
    ensures var recorded := RecordSale(st, sale, stamp, now);
            var disputed := DisputeSale(recorded, stamp, stamp2, now2);
            && |disputed.products| == |st.products|
            && (forall i :: 0 <= i < |st.products| ==>
                  disputed.products[i].quantity == st.products[i].quantity
                  && disputed.products[i].id == st.products[i].id)
            && (forall i :: 0 <= i < |st.products| ==>
                  (forall k :: 0 <= k < |sale.items| ==> sale.items[k].productId != st.products[i].id) ==>
                  disputed.products[i] == st.products[i])
            && disputed.salesReps == st.salesReps
            && disputed.sales[0].status == Disputed
            && ((forall i :: 0 <= i < |st.sales| ==> st.sales[i].id != stamp) ==> disputed.sales[1..] == st.sales)
            && disputed.stockLogs == recorded.stockLogs
  {
    RecordThenDisputeProducts(st, sale, stamp, now, stamp2, now2);
    RecordThenDisputeReps(st, sale, stamp, now, stamp2, now2);
    var recorded := RecordSale(st, sale, stamp, now);
    assert FindSale(recorded.sales, stamp) == Some(SaleFromDraft(sale, stamp, now));
    var disputed := DisputeSale(recorded, stamp, stamp2, now2);
    if forall i :: 0 <= i < |st.sales| ==> st.sales[i].id != stamp {
      assert disputed.sales[1..] == st.sales;
    }
  }

  lemma RecordThenDisputeProducts(st: StoreState, sale: SaleDraft, stamp: string, now: int, stamp2: string, now2: int)
    requires SaleProductsExist(st.products, sale.items)
    ensures var disputed := DisputeSale(RecordSale(st, sale, stamp, now), stamp, stamp2, now2);
            && |disputed.products| == |st.products|
            && (forall i :: 0 <= i < |st.products| ==>
                  disputed.products[i].quantity == st.products[i].quantity
                  && disputed.products[i].id == st.products[i].id)
            && (forall i :: 0 <= i < |st.products| ==>
                  (forall k :: 0 <= k < |sale.items| ==> sale.items[k].productId != st.products[i].id) ==>
                  disputed.products[i] == st.products[i])
  {
    var recorded := RecordSale(st, sale, stamp, now);
    assert FindSale(recorded.sales, stamp) == Some(SaleFromDraft(sale, stamp, now));
    var disputed := DisputeSale(recorded, stamp, stamp2, now2);
    forall i | 0 <= i < |st.products|
      ensures disputed.products[i].quantity == st.products[i].quantity
      ensures disputed.products[i].id == st.products[i].id
    {
      assert recorded.products[i] == SellFrom(st.products[i], sale.items, now);
      assert disputed.products[i] == RestockFrom(recorded.products[i], sale.items, now2);
    }
  }

  lemma RecordThenDisputeReps(st: StoreState, sale: SaleDraft, stamp: string, now: int, stamp2: string, now2: int)
    requires SaleProductsExist(st.products, sale.items)
    requires CountersNonNegative(st.salesReps)
    ensures DisputeSale(RecordSale(st, sale, stamp, now), stamp, stamp2, now2).salesReps == st.salesReps
  {
    var recorded := RecordSale(st, sale, stamp, now);
    assert FindSale(recorded.sales, stamp) == Some(SaleFromDraft(sale, stamp, now));
    var disputed := DisputeSale(recorded, stamp, stamp2, now2);
    forall i | 0 <= i < |disputed.salesReps|
      ensures disputed.salesReps[i] == st.salesReps[i]
    {
      if st.salesReps[i].id == sale.salesRepId {
        assert recorded.salesReps[i] == Credit(st.salesReps[i], sale.totalAmount);
      }
    }
  }

  // ---------------------------------------------------------------------
  // The stock ledger only grows

  lemma LogsOnlyGrow(st: StoreState, op: Op, stamp: string, now: int)
    requires Completes(st, op)
    ensures IsSuffix(st.stockLogs, Apply(st, op, stamp, now).stockLogs)
  {
    match op
    case AddStockOp(id, q, note) =>
      assert Apply(st, op, stamp, now) == AddStock(st, id, q, note, stamp, now);
      AddStockLogsGrow(st, id, q, note, stamp, now);
    case RecordSaleOp(sale) =>
      assert Apply(st, op, stamp, now) == RecordSale(st, sale, stamp, now);
      SuffixOfPrepend(st.stockLogs, SaleLogs(st.products, sale, stamp, now));
    case _ =>
      LogsUntouched(st, op, stamp, now);
      SuffixOfSelf(st.stockLogs);
  }

  /** `addStock` prepends one entry, or none for an unknown product. */
  lemma AddStockLogsGrow(st: StoreState, productId: string, quantity: int, note: Option<string>, stamp: string, now: int)
    ensures IsSuffix(st.stockLogs, AddStock(st, productId, quantity, note, stamp, now).stockLogs)
  {
    match FindProduct(st.products, productId)
    case None =>
      SuffixOfSelf(st.stockLogs);
    case Some(product) =>
      SuffixOfPrepend(st.stockLogs, [StockAddedLog(product, quantity, note, st.currentUser, stamp, now)]);
  }

  /** Only `addStock` and `recordSale` write to the ledger. */
  lemma LogsUntouched(st: StoreState, op: Op, stamp: string, now: int)
    requires !op.AddStockOp? && !op.RecordSaleOp?
    ensures Apply(st, op, stamp, now).stockLogs == st.stockLogs
  {
  }

  /** Across any run of calls, including deletions, the ledger at the start
      is still there, under whatever entries were prepended. */
  lemma {:induction false} LogsOnlyGrowOverRun(st: StoreState, steps: seq<Step>)
    ensures IsSuffix(st.stockLogs, Run(st, steps).stockLogs)
    decreases |steps|
  {
    if |steps| == 0 {
      SuffixOfPrepend(st.stockLogs, []);
      assert [] + st.stockLogs == st.stockLogs;
    } else {
      var init := steps[..|steps| - 1];
      var last := steps[|steps| - 1];
      var mid := Run(st, init);
      LogsOnlyGrowOverRun(st, init);
      if Completes(mid, last.op) {
        LogsOnlyGrow(mid, last.op, last.stamp, last.now);
        SuffixTransitive(st.stockLogs, mid.stockLogs, Run(st, steps).stockLogs);
      }
    }
  }

  // ---------------------------------------------------------------------
  // approveSale and disputeSale without status guards

  /** `approveSale` marks every sale with the id approved, touches no product,
      rep or log, and adds an activity exactly when such a sale exists. */
  lemma ApproveSaleEffects(st: StoreState, saleId: string, stamp: string, now: int)
    ensures var st' := ApproveSale(st, saleId, stamp, now);
            && st'.products == st.products && st'.salesReps == st.salesReps
            && st'.stockLogs == st.stockLogs && st'.currentUser == st.currentUser
            && |st'.sales| == |st.sales|
            && (forall i :: 0 <= i < |st.sales| && st.sales[i].id == saleId ==> st'.sales[i] == st.sales[i].(status := Approved))
            && (forall i :: 0 <= i < |st.sales| && st.sales[i].id != saleId ==> st'.sales[i] == st.sales[i])
            && ((exists i :: 0 <= i < |st.sales| && st.sales[i].id == saleId) <==> |st'.activities| == |st.activities| + 1)
            && IsSuffix(st.activities, st'.activities)
  {
    var st' := ApproveSale(st, saleId, stamp, now);
    if FindSale(st.sales, saleId).Some? {
      SuffixOfPrepend(st.activities, st'.activities[..1]);
      assert st'.activities == st'.activities[..1] + st.activities;
    } else {
      SuffixOfPrepend(st.activities, []);
      assert [] + st.activities == st.activities;
    }
  }

  /** Approving again, or approving a disputed sale, is not refused: the
      status becomes approved whatever it was. */
  lemma ApproveIgnoresStatus(st: StoreState, i: nat, stamp: string, now: int)
    requires i < |st.sales| && st.sales[i].status == Disputed
    ensures ApproveSale(st, st.sales[i].id, stamp, now).sales[i].status == Approved
  {
  }

  /** Disputing a sale twice restocks it twice: the second call finds the
      same sale, now disputed, and adds its first line items back again. */
  lemma DisputeTwiceRestocksTwice(st: StoreState, saleId: string, stamp: string, now: int, stamp2: string, now2: int)
    requires FindSale(st.sales, saleId).Some?
    ensures var sale := FindSale(st.sales, saleId).value;
            var twice := DisputeSale(DisputeSale(st, saleId, stamp, now), saleId, stamp2, now2);
            && |twice.products| == |st.products|
            && forall i :: 0 <= i < |st.products| ==>
                 match FirstItemFor(sale.items, st.products[i].id)
                 case Some(item) => twice.products[i].quantity == st.products[i].quantity + 2 * item.quantity
                 case None => twice.products[i] == st.products[i]
  {
    var sale := FindSale(st.sales, saleId).value;
    var once := DisputeSale(st, saleId, stamp, now);
    IndexOfSameKeys(st.sales, once.sales, (s: Sale) => s.id, saleId);
    assert FindSale(once.sales, saleId) == Some(sale.(status := Disputed));
    forall i | 0 <= i < |st.products|
      ensures once.products[i] == RestockFrom(st.products[i], sale.items, now)
    {
    }
  }

  // ---------------------------------------------------------------------
  // Frames of the record-level operations

  /** `updateProduct` rewrites only the records with the id. */
  lemma UpdateProductFrame(st: StoreState, id: string, updates: ProductPatch, now: int)
    ensures var st' := UpdateProduct(st, id, updates, now);
            && |st'.products| == |st.products|
            && (forall i :: 0 <= i < |st.products| && st.products[i].id == id ==>
                  st'.products[i] == PatchProduct(st.products[i], updates).(updatedAt := now))
            && (forall i :: 0 <= i < |st.products| && st.products[i].id != id ==> st'.products[i] == st.products[i])
            && st'.(products := st.products) == st
  {
  }

  /** `updateSalesRep` rewrites only the reps with the id. */
  lemma UpdateSalesRepFrame(st: StoreState, id: string, updates: SalesRepPatch)
    ensures var st' := UpdateSalesRep(st, id, updates);
            && |st'.salesReps| == |st.salesReps|
            && (forall i :: 0 <= i < |st.salesReps| && st.salesReps[i].id == id ==>
                  st'.salesReps[i] == PatchSalesRep(st.salesReps[i], updates))
            && (forall i :: 0 <= i < |st.salesReps| && st.salesReps[i].id != id ==> st'.salesReps[i] == st.salesReps[i])
            && st'.(salesReps := st.salesReps) == st
  {
  }

  /** `deleteProduct` removes exactly the products with the id, keeps the
      others in order, and leaves sales and the stock ledger alone. */
  lemma DeleteProductExact(st: StoreState, id: string)
    ensures var st' := DeleteProduct(st, id);
            && (forall i :: 0 <= i < |st'.products| ==> st'.products[i].id != id && st'.products[i] in st.products)
            && (forall i :: 0 <= i < |st.products| && st.products[i].id != id ==> st.products[i] in st'.products)
            && IsSubsequence(st'.products, st.products)
            && st'.(products := st.products) == st
  {
  }

  /** `deleteSalesRep` removes exactly the reps with the id. */
  lemma DeleteSalesRepExact(st: StoreState, id: string)
    ensures var st' := DeleteSalesRep(st, id);
            && (forall i :: 0 <= i < |st'.salesReps| ==> st'.salesReps[i].id != id && st'.salesReps[i] in st.salesReps)
            && (forall i :: 0 <= i < |st.salesReps| && st.salesReps[i].id != id ==> st.salesReps[i] in st'.salesReps)
            && IsSubsequence(st'.salesReps, st.salesReps)
            && st'.(salesReps := st.salesReps) == st
  {
  }

  // ---------------------------------------------------------------------
  // addSalesRep, setCurrentUser, addProduct, addActivity

  /** A new rep is appended: the draft's fields, the generated id and time,
      and both counters at zero; one activity is prepended and nothing else
      changes. */
  lemma AddSalesRepStartsAtZero(st: StoreState, d: SalesRepDraft, stamp: string, now: int)
    ensures var st' := AddSalesRep(st, d, stamp, now);
            && |st'.salesReps| == |st.salesReps| + 1
            && st'.salesReps[..|st.salesReps|] == st.salesReps
            && st'.salesReps[|st.salesReps|].todaySales == 0
            && st'.salesReps[|st.salesReps|].totalSales == 0
            && st'.salesReps[|st.salesReps|] == SalesRep(stamp, d.name, d.email, d.phone, d.pin, d.isActive, 0, 0, now)
            && |st'.activities| == |st.activities| + 1 && st'.activities[1..] == st.activities
            && st'.(salesReps := st.salesReps, activities := st.activities) == st
  {
  }

  /** Logging out clears the user and records nothing; logging in records one
      login activity for that rep. */
  lemma SetCurrentUserEffects(st: StoreState, rep: Option<SalesRep>, stamp: string, now: int)
    ensures var st' := SetCurrentUser(st, rep, stamp, now);
            && st'.currentUser == rep
            && (rep.None? ==> st'.activities == st.activities)
            && (rep.Some? ==>
                  && |st'.activities| == |st.activities| + 1
                  && st'.activities[1..] == st.activities
                  && st'.activities[0].kind == LoginActivity
                  && st'.activities[0].userId == rep.value.id)
            && st'.(currentUser := st.currentUser, activities := st.activities) == st
  {
  }

  /** A new product is appended: the draft's fields with the generated id and
      equal timestamps; one activity is prepended and nothing else changes. */
  lemma AddProductAppends(st: StoreState, d: ProductDraft, stamp: string, now: int)
    ensures var st' := AddProduct(st, d, stamp, now);
            && |st'.products| == |st.products| + 1
            && st'.products[..|st.products|] == st.products
            && st'.products[|st.products|]
               == Product(stamp, d.name, d.category, d.quantity, d.unit, d.costPrice, d.sellingPrice,
                          d.lowStockThreshold, d.description, now, now)
            && |st'.activities| == |st.activities| + 1 && st'.activities[1..] == st.activities
            && st'.(products := st.products, activities := st.activities) == st
  {
  }

  lemma AddActivityPrepends(st: StoreState, d: ActivityDraft, stamp: string, now: int)
    ensures var st' := AddActivity(st, d, stamp, now);
            && |st'.activities| == |st.activities| + 1
            && st'.activities[1..] == st.activities
            && st'.activities[0].message == d.message && st'.activities[0].kind == d.kind
            && st'.(activities := st.activities) == st
  {
  }
}
