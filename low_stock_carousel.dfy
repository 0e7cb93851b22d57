/** The low-stock carousel on the owner's dashboard: one low-stock product at
    a time, previous / next buttons, a dot per product and a four-second
    rotation, all driven by `currentIndex`. */
module LowStockCarousel {
  import opened Seqs
  import opened Domain
  import StoreOps

  function LowStockItems(products: seq<Product>): seq<Product>
  {
    LowStockProducts(products)
  }

  // ---------------------------------------------------------------------
  // Index arithmetic. The operands are never negative here, so JavaScript's
  // truncating `%` and Dafny's Euclidean `%` agree.

  function Next(i: nat, n: nat): (r: nat)
    requires n > 0
    ensures r < n
    ensures i < n - 1 ==> r == i + 1
    ensures i == n - 1 ==> r == 0
  {
    (i + 1) % n
  }

  function Prev(i: nat, n: nat): (r: nat)
    requires n > 0
    ensures r < n
    ensures 0 < i < n ==> r == i - 1
    ensures i == 0 ==> r == n - 1
  {
    (i - 1 + n) % n
  }

  /** Back after forward, or forward after back, returns to the same item. */
  lemma PrevAfterNext(i: nat, n: nat)
    requires i < n
    ensures Prev(Next(i, n), n) == i
    ensures Next(Prev(i, n), n) == i
  {
  }

  /** n steps forward come back round to where they started. */
  lemma {:induction false} FullRotation(i: nat, n: nat, k: nat)
    requires i < n
    ensures Rotate(i, n, k) == (i + k) % n
    decreases k
  {
    if k > 0 {
      FullRotation(i, n, k - 1);
      var j := Rotate(i, n, k - 1);
      assert Rotate(i, n, k) == (j + 1) % n;
      Mod1Step(i + k - 1, n);
    }
  }

  lemma Mod1Step(a: nat, n: nat)
    requires n > 0
    ensures (a % n + 1) % n == (a + 1) % n
  {
    var q, r := a / n, a % n;
    if r + 1 < n {
      ModUnique(a + 1, q, r + 1, n);
      ModUnique(r + 1, 0, r + 1, n);
    } else {
      ModUnique(a + 1, q + 1, 0, n);
      ModUnique(r + 1, 1, 0, n);
    }
  }

  /** The remainder is the unique one in range. */
  lemma ModUnique(x: int, q: int, r: int, n: int)
    requires n > 0 && 0 <= r < n && x == q * n + r
    ensures x % n == r
  {
    var q', r' := x / n, x % n;
    assert (q' - q) * n == r - r';
    if q' - q >= 1 {
      assert false;
    } else if q' - q <= -1 {
      assert false;
    }
  }

  /** The index after `k` forward steps. */
  function Rotate(i: nat, n: nat, k: nat): nat
    requires n > 0
  {
    if k == 0 then i else Next(Rotate(i, n, k - 1), n)
  }

  lemma RotationCycles(i: nat, n: nat)
    requires i < n
    ensures Rotate(i, n, n) == i
  {
    FullRotation(i, n, n);
    ModUnique(i + n, 1, i, n);
  }

  // ---------------------------------------------------------------------
  // The item on show

  /** `lowStockItems[currentIndex]` as written: past the end it is undefined
      (`None`), and reading `.quantity` from it throws. */
  function CurrentItemAsWritten(items: seq<Product>, index: nat): Option<Product>
  {
    if index < |items| then Some(items[index]) else None
  }

  /** The item on show, with the index brought back into range. */
  function CurrentItem(items: seq<Product>, index: nat): (p: Product)
    requires |items| > 0
    ensures p in items
    ensures index < |items| ==> CurrentItemAsWritten(items, index) == Some(p)
  {
    items[index % |items|]
  }

  /** The card turns red when the product on show has run out. */
  predicate IsCritical(items: seq<Product>, index: nat)
    requires |items| > 0
  {
    CurrentItem(items, index).quantity == 0
  }

  /** `currentItem.quantity === 0` as written: `None` stands for the
      TypeError thrown when the index is past the end. In range it is the
      corrected test. */
  function IsCriticalAsWritten(items: seq<Product>, index: nat): (r: Option<bool>)
    ensures r.None? <==> index >= |items|
    ensures r.Some? ==> r.value == IsCritical(items, index)
  {
    match CurrentItemAsWritten(items, index)
    case None => None
    case Some(p) => Some(p.quantity == 0)
  }

  /** The corrected item is always one of the low-stock products. */
  lemma CurrentItemIsLowStock(products: seq<Product>, index: nat)
    requires |LowStockItems(products)| > 0
    ensures var p := CurrentItem(LowStockItems(products), index);
            p in products && p.quantity <= p.lowStockThreshold
  {
  }

  /** Two low-stock products, the carousel moved on to the second, then the
      second restocked above its threshold (the product list `addStock`
      writes): one item is left, the index still points past it, the
      source's current item is undefined, and with a single item neither the
      buttons nor the rotation exist to move it. */
  lemma StaleIndexAfterRestock()
    ensures var empty := Product("p1", "Rice", "Food", 0, "bag", 100, 150, 5, None, 0, 0);
            var low := Product("p2", "Beans", "Food", 2, "bag", 100, 150, 5, None, 0, 0);
            var before := [empty, low];
            var after := StoreOps.Restocked(before, "p2", 10, 1);
            var index := Next(0, |LowStockItems(before)|);
            && |LowStockItems(before)| == 2
            && index == 1
            && LowStockItems(after) == [empty]
            && CurrentItemAsWritten(LowStockItems(after), index).None?
            && IsCriticalAsWritten(LowStockItems(after), index).None?
            && IsCritical(LowStockItems(after), index)
  {
    var empty := Product("p1", "Rice", "Food", 0, "bag", 100, 150, 5, None, 0, 0);
    var low := Product("p2", "Beans", "Food", 2, "bag", 100, 150, 5, None, 0, 0);
    var before := [empty, low];
    assert before[..1] == [empty];
    assert [empty][..0] == [];
    assert Filter([empty], IsLowStock) == [empty];
    assert Filter(before, IsLowStock) == [empty, low];
    var after := StoreOps.Restocked(before, "p2", 10, 1);
    var restocked := low.(quantity := 12, updatedAt := 1);
    assert after == [empty, restocked];
    assert after[..1] == [empty];
    assert Filter(after, IsLowStock) == [empty];
    assert LowStockItems(after) == [empty];
    assert Next(0, 2) == 1;
    assert CurrentItem([empty], 1) == empty;
    assert IsCriticalAsWritten([empty], 1).None?;
  }

  // ---------------------------------------------------------------------
  // The state

  class Carousel {
    var currentIndex: nat

    constructor ()
      ensures currentIndex == 0
    {
      currentIndex := 0;
    }

    /** The right-hand button, rendered only when there are two or more items. */
    method GoToNext(n: nat)
      requires n > 1
      modifies this
      ensures currentIndex == Next(old(currentIndex), n)
    {
      currentIndex := (currentIndex + 1) % n;
    }

    /** The left-hand button, rendered only when there are two or more items. */
    method GoToPrev(n: nat)
      requires n > 1
      modifies this
      ensures currentIndex == Prev(old(currentIndex), n)
    {
      currentIndex := (currentIndex - 1 + n) % n;
    }

    /** A dot, one per item. */
    method SelectDot(index: nat, n: nat)
      requires index < n
      modifies this
      ensures currentIndex == index
    {
      currentIndex := index;
    }

    /** One tick of the rotation timer, which is set up only for two or more items. */
    method Tick(n: nat)
      modifies this
      ensures n > 1 ==> currentIndex == Next(old(currentIndex), n)
      ensures n <= 1 ==> currentIndex == old(currentIndex)
    {
      if n > 1 {
        currentIndex := (currentIndex + 1) % n;
      }
    }
  }
}
