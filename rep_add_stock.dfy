/** The rep's add-stock page: a product search, the chosen product, the
    new-level preview, and a submission that restocks the chosen product and
    clears the form. */
module RepAddStock {
  import opened Seqs
  import opened Domain
  import Text
  import StoreOps
  import StoreProps
  import DomainStore
  import AddStockForm

  /** The products whose name contains the query, ignoring case, in store order. */
  function FilteredProducts(products: seq<Product>, searchQuery: string): (r: seq<Product>)
    ensures IsSubsequence(r, products)
    ensures forall p :: p in r <==> p in products && Text.IncludesIgnoringCase(p.name, searchQuery)
  {
    var r := Filter(products, NameMatches(searchQuery));
    assert forall p :: p in products && Text.IncludesIgnoringCase(p.name, searchQuery) ==> p in r by {
      forall p | p in products && Text.IncludesIgnoringCase(p.name, searchQuery) ensures p in r {
        var j :| 0 <= j < |products| && products[j] == p;
      }
    }
    r
  }

  /** `products.find((p) => p.id === selectedProductId)`. */
  function SelectedProduct(products: seq<Product>, selectedProductId: string): (r: Option<Product>)
    ensures r.Some? <==> StoreOps.HasProduct(products, selectedProductId)
    ensures r.Some? ==> r.value in products && r.value.id == selectedProductId
  {
    StoreOps.FindProduct(products, selectedProductId)
  }

  /** The submit guard: a product chosen and a quantity typed. */
  predicate CanSubmit(selectedProductId: string, quantity: string)
  {
    selectedProductId != "" && quantity != ""
  }

  /** The preview needs a chosen product as well as a positive quantity. */
  function Preview(products: seq<Product>, selectedProductId: string, quantity: string, parsed: Option<int>): (level: Option<int>)
    ensures level.Some? <==> StoreOps.HasProduct(products, selectedProductId) && quantity != "" && parsed.Some? && parsed.value > 0
    ensures level.Some? ==> level.value == SelectedProduct(products, selectedProductId).value.quantity + parsed.value
  {
    match SelectedProduct(products, selectedProductId)
    case None => None
    case Some(p) => AddStockForm.Preview(p, quantity, parsed)
  }

  /** Unlike the inventory form, this page does not check the sign: "0" or a
      negative number passes the guard and reaches `addStock`, which then
      lowers the stock (the field's `min="1"` is browser validation). */
  lemma NoSignCheck(st: StoreOps.StoreState, selectedProductId: string, q: int, stamp: string, now: int, i: nat)
    requires q < 0 && i < |st.products| && st.products[i].id == selectedProductId && selectedProductId != ""
    ensures CanSubmit(selectedProductId, "-1")
    ensures StoreOps.AddStock(st, selectedProductId, q, None, stamp, now).products[i].quantity < st.products[i].quantity
  {
    StoreProps.AddStockOnKnownProduct(st, selectedProductId, q, None, stamp, now);
  }

  /** A previewed level is the level the first product with the id reaches. */
  lemma PreviewIsNewLevel(st: StoreOps.StoreState, selectedProductId: string, quantity: string, parsed: Option<int>,
                          note: string, stamp: string, now: int)
    requires Preview(st.products, selectedProductId, quantity, parsed).Some?
    ensures var k := IndexOf(st.products, (p: Product) => p.id, selectedProductId).value;
            StoreOps.AddStock(st, selectedProductId, parsed.value, OrUndefined(note), stamp, now).products[k].quantity
            == Preview(st.products, selectedProductId, quantity, parsed).value
  {
    StoreProps.AddStockOnKnownProduct(st, selectedProductId, parsed.value, OrUndefined(note), stamp, now);
  }

  class Page {
    var searchQuery: string
    var selectedProductId: string
    var quantity: string
    var note: string

    constructor ()
      ensures searchQuery == "" && selectedProductId == "" && quantity == "" && note == ""
    {
      searchQuery, selectedProductId, quantity, note := "", "", "", "";
    }

    /** Submit: ignored without a product or a quantity; otherwise restocks
        with the parsed quantity and the note or no note, then clears the
        product, the quantity and the note. A quantity with no integer value
        restocks with NaN, which the integer stock level cannot hold. The
        page offers the form only with a user logged in and products in the
        store. */
    method HandleSubmit(store: DomainStore.Store, parsed: Option<int>, stamp: string, now: int)
      returns (outcome: AddStockForm.Submission)
      requires store.currentUser.Some? && |store.products| > 0
      modifies this, store
      ensures searchQuery == old(searchQuery)
      ensures outcome.Ignored? <==> !old(CanSubmit(selectedProductId, quantity))
      ensures outcome.Ignored? ==>
                && selectedProductId == old(selectedProductId) && quantity == old(quantity) && note == old(note)
                && store.State() == old(store.State())
      ensures !outcome.Ignored? ==> selectedProductId == "" && quantity == "" && note == ""
      ensures outcome.Restocked? <==> old(CanSubmit(selectedProductId, quantity)) && parsed.Some?
      ensures outcome.Restocked? ==>
                && outcome.quantity == parsed.value
                && store.State() == StoreOps.AddStock(old(store.State()), old(selectedProductId), parsed.value,
                                                      OrUndefined(old(note)), stamp, now)
      ensures outcome.RestockedWithNaN? <==> old(CanSubmit(selectedProductId, quantity)) && parsed.None?
      ensures outcome.RestockedWithNaN? ==>
                AddStockForm.UnparsedRestockFrame(old(store.State()), store.State(), old(selectedProductId))
    {
      if selectedProductId == "" || quantity == "" {
        return AddStockForm.Ignored;
      }
      if parsed.None? {
        SuffixOfSelf(store.stockLogs);
        SuffixOfSelf(store.activities);
        outcome := AddStockForm.RestockedWithNaN;
      } else {
        store.AddStock(selectedProductId, parsed.value, if note == "" then None else Some(note), stamp, now);
        outcome := AddStockForm.Restocked(parsed.value);
      }
      selectedProductId := "";
      quantity := "";
      note := "";
    }
  }
}
