/** The owner's add-stock form for one product: a quantity field, an
    optional note, the new-level preview, and a submission that restocks
    unless the quantity is empty or parses to a number at most 0, and then
    closes. */
module AddStockForm {
  import opened Seqs
  import opened Domain
  import StoreOps
  import StoreProps
  import DomainStore

  /** The submit guard `!quantity || parseInt(quantity) <= 0`, negated.
      `parsed` is `parseInt(quantity)`, with `None` for NaN. A number field
      can hold text that is a valid number yet does not parse as an integer
      (".5e1" is 5); `NaN <= 0` is false, so such a field submits. */
  predicate Submits(quantity: string, parsed: Option<int>)
  {
    quantity != "" && !(parsed.Some? && parsed.value <= 0)
  }

  /** "New stock level will be …", shown for `quantity && parseInt(quantity) > 0`. */
  function Preview(product: Product, quantity: string, parsed: Option<int>): (level: Option<int>)
    ensures level.Some? <==> quantity != "" && parsed.Some? && parsed.value > 0
    ensures level.Some? ==> level.value == product.quantity + parsed.value && level.value > product.quantity
  {
    if quantity != "" && parsed.Some? && parsed.value > 0 then Some(product.quantity + parsed.value) else None
  }

  /** A preview always means the form submits; the form submits without a
      preview exactly when the field is non-empty and does not parse. */
  lemma PreviewAndSubmits(product: Product, quantity: string, parsed: Option<int>)
    ensures Preview(product, quantity, parsed).Some? ==> Submits(quantity, parsed)
    ensures Submits(quantity, parsed) && Preview(product, quantity, parsed).None? <==> quantity != "" && parsed.None?
  {
  }

  /** ".5e1" submits with no preview shown. */
  lemma UnparsedSubmitsWithoutPreview(product: Product)
    ensures Submits(".5e1", None) && Preview(product, ".5e1", None).None?
  {
  }

  /** The button is disabled while saving or with an empty field. */
  predicate SubmitDisabled(isLoading: bool, quantity: string)
  {
    isLoading || quantity == ""
  }

  /** The button is enabled whenever the form would submit, but enabling it
      is not enough: "0" enables it and is still ignored. */
  lemma EnabledIsNotEnough(quantity: string, parsed: Option<int>)
    ensures Submits(quantity, parsed) ==> !SubmitDisabled(false, quantity)
    ensures !SubmitDisabled(false, "0") && !Submits("0", Some(0))
  {
  }

  /** The preview is the level the product reaches: when the product shown
      is the store's record, submitting raises that record to exactly the
      previewed quantity. */
  lemma PreviewIsNewLevel(st: StoreOps.StoreState, product: Product, quantity: string, parsed: Option<int>,
                          note: string, stamp: string, now: int, i: nat)
    requires i < |st.products| && st.products[i] == product
    requires Preview(product, quantity, parsed).Some?
    ensures StoreOps.AddStock(st, product.id, parsed.value, OrUndefined(note), stamp, now).products[i].quantity
            == Preview(product, quantity, parsed).value
  {
    StoreProps.AddStockOnKnownProduct(st, product.id, parsed.value, OrUndefined(note), stamp, now);
  }

  /** What a submission did: nothing, `addStock` with a number, or `addStock`
      with NaN. */
  datatype Submission = Ignored | Restocked(quantity: int) | RestockedWithNaN

  /** What `addStock(productId, NaN, …)` is known to keep: the other
      products, every field of the product but its quantity and update
      time, the sales, the reps and the user; the ledger and the activity
      feed at most grow at the front. */
  predicate UnparsedRestockFrame(before: StoreOps.StoreState, after: StoreOps.StoreState, productId: string)
  {
    && |after.products| == |before.products|
    && (forall i :: 0 <= i < |before.products| ==>
          if before.products[i].id != productId then after.products[i] == before.products[i]
          else after.products[i].(quantity := before.products[i].quantity, updatedAt := before.products[i].updatedAt)
               == before.products[i])
    && after.sales == before.sales && after.salesReps == before.salesReps && after.currentUser == before.currentUser
    && IsSuffix(before.stockLogs, after.stockLogs) && IsSuffix(before.activities, after.activities)
  }

  class Form {
    var quantity: string
    var note: string

    constructor ()
      ensures quantity == "" && note == ""
    {
      quantity := "";
      note := "";
    }

    /** Submit: nothing for an empty field or a number at most 0; otherwise
        exactly one `addStock` for this product, with the note or no note,
        and the form closes. A field with no integer value restocks with
        NaN, which the integer stock level cannot hold. */
    method HandleSubmit(store: DomainStore.Store, product: Product, parsed: Option<int>, stamp: string, now: int)
      returns (outcome: Submission)
      modifies store
      ensures outcome.Ignored? <==> !Submits(quantity, parsed)
      ensures outcome.Ignored? ==> store.State() == old(store.State())
      ensures outcome.Restocked? <==> Submits(quantity, parsed) && parsed.Some?
      ensures outcome.Restocked? ==>
                && outcome.quantity == parsed.value && outcome.quantity > 0
                && store.State() == StoreOps.AddStock(old(store.State()), product.id, parsed.value, OrUndefined(note), stamp, now)
      ensures outcome.RestockedWithNaN? <==> quantity != "" && parsed.None?
      ensures outcome.RestockedWithNaN? ==> UnparsedRestockFrame(old(store.State()), store.State(), product.id)
    {
      if quantity == "" || (parsed.Some? && parsed.value <= 0) {
        return Ignored;
      }
      if parsed.None? {
        SuffixOfSelf(store.stockLogs);
        SuffixOfSelf(store.activities);
        return RestockedWithNaN;
      }
      store.AddStock(product.id, parsed.value, if note == "" then None else Some(note), stamp, now);
      outcome := Restocked(parsed.value);
    }
  }
}
