/** The inventory page: the category list, the search / category / stock
    filter, the column sort, the summary figures and the sort-header toggle. */
module InventoryView {
  import opened Seqs
  import opened Domain
  import Text

  // ---------------------------------------------------------------------
  // Categories: `Array.from(new Set(products.map((p) => p.category)))`

  /** Each category once, in order of first appearance. */
  function Categories(products: seq<Product>): (cats: seq<string>)
    ensures forall i, j :: 0 <= i < j < |cats| ==> cats[i] != cats[j]
    ensures forall i :: 0 <= i < |cats| ==> exists k :: 0 <= k < |products| && products[k].category == cats[i]
    ensures forall k :: 0 <= k < |products| ==> products[k].category in cats
    decreases |products|
  {
    if |products| == 0 then []
    else
      var init := Categories(products[..|products| - 1]);
      var c := products[|products| - 1].category;
      assert forall k :: 0 <= k < |products| - 1 ==> products[..|products| - 1][k] == products[k];
      if c in init then init else init + [c]
  }

  /** Wherever a later category occurs in the products, an earlier one has
      already occurred. */
  predicate FirstAppearanceOrder(products: seq<Product>, cats: seq<string>)
  {
    forall i, j, k :: 0 <= i < j < |cats| && 0 <= k < |products| && products[k].category == cats[j] ==>
      exists k' :: 0 <= k' < k && products[k'].category == cats[i]
  }

  /** The order is that of first appearance. */
  lemma CategoriesInFirstAppearanceOrder(products: seq<Product>)
    ensures FirstAppearanceOrder(products, Categories(products))
  {
    forall i, j, k | 0 <= i < j < |Categories(products)| && 0 <= k < |products|
                     && products[k].category == Categories(products)[j]
      ensures exists k' :: 0 <= k' < k && products[k'].category == Categories(products)[i]
    {
      EarlierCategoryOccursFirst(products, i, j, k);
    }
  }

  /** One instance of the order, by induction on the products. */
  lemma {:induction false} EarlierCategoryOccursFirst(products: seq<Product>, i: nat, j: nat, k: nat)
    requires i < j < |Categories(products)| && k < |products| && products[k].category == Categories(products)[j]
    ensures exists k' :: 0 <= k' < k && products[k'].category == Categories(products)[i]
    decreases |products|
  {
    var init := products[..|products| - 1];
    var ci := Categories(init);
    var c := products[|products| - 1].category;
    var k': nat;
    if k < |init| {
      k' := EarlierInPrefix(products, i, j, k);
    } else if c in ci {
      k' := EarlierThanRepeat(products, i, j);
    } else {
      k' := EarlierThanNew(products, i, j);
    }
  }

  /** The later category occurs before the last product: the prefix has both. */
  lemma {:induction false} EarlierInPrefix(products: seq<Product>, i: nat, j: nat, k: nat) returns (k': nat)
    requires i < j < |Categories(products)| && k < |products| - 1 && products[k].category == Categories(products)[j]
    ensures k' < k && products[k'].category == Categories(products)[i]
    decreases |products|, 0
  {
    var init := products[..|products| - 1];
    var ci := Categories(init);
    assert init[k] == products[k];
    assert init[k].category in ci;
    assert j < |ci|;
    assert Categories(products)[i] == ci[i] && Categories(products)[j] == ci[j];
    EarlierCategoryOccursFirst(init, i, j, k);
    k' :| 0 <= k' < k && init[k'].category == ci[i];
    assert products[k'] == init[k'];
  }

  /** The last product repeats a category: an earlier product has it too. */
  lemma {:induction false} EarlierThanRepeat(products: seq<Product>, i: nat, j: nat) returns (k': nat)
    requires |products| > 0 && i < j < |Categories(products)|
    requires products[|products| - 1].category in Categories(products[..|products| - 1])
    ensures k' < |products| - 1 && products[k'].category == Categories(products)[i]
    decreases |products|, 0
  {
    var init := products[..|products| - 1];
    var ci := Categories(init);
    assert Categories(products) == ci;
    var k0 := OccurrenceOf(init, j);
    EarlierCategoryOccursFirst(init, i, j, k0);
    k' :| 0 <= k' < k0 && init[k'].category == ci[i];
    assert products[k'] == init[k'];
  }

  /** Every listed category has a product. */
  lemma OccurrenceOf(products: seq<Product>, j: nat) returns (k: nat)
    requires j < |Categories(products)|
    ensures k < |products| && products[k].category == Categories(products)[j]
  {
    k :| 0 <= k < |products| && products[k].category == Categories(products)[j];
  }

  /** The last product brings a new category, the last in the list. */
  lemma EarlierThanNew(products: seq<Product>, i: nat, j: nat) returns (k': nat)
    requires |products| > 0 && i < j < |Categories(products)|
    requires products[|products| - 1].category !in Categories(products[..|products| - 1])
    ensures k' < |products| - 1 && products[k'].category == Categories(products)[i]
  {
    var init := products[..|products| - 1];
    var ci := Categories(init);
    assert Categories(products) == ci + [products[|products| - 1].category];
    assert Categories(products)[i] == ci[i];
    k' :| 0 <= k' < |init| && init[k'].category == ci[i];
    assert products[k'] == init[k'];
  }

  // ---------------------------------------------------------------------
  // The filter

  predicate MatchesSearch(p: Product, searchQuery: string)
  {
    Text.IncludesIgnoringCase(p.name, searchQuery)
  }

  predicate MatchesCategory(p: Product, categoryFilter: string)
  {
    categoryFilter == "all" || p.category == categoryFilter
  }

  /** The stock select offers "all", "in", "low" and "out"; any other value matches nothing. */
  predicate MatchesStock(p: Product, stockFilter: string)
  {
    || stockFilter == "all"
    || (stockFilter == "low" && p.quantity <= p.lowStockThreshold)
    || (stockFilter == "out" && p.quantity == 0)
    || (stockFilter == "in" && p.quantity > p.lowStockThreshold)
  }

  predicate Matches(p: Product, searchQuery: string, categoryFilter: string, stockFilter: string)
  {
    MatchesSearch(p, searchQuery) && MatchesCategory(p, categoryFilter) && MatchesStock(p, stockFilter)
  }

  function Filtered(products: seq<Product>, searchQuery: string, categoryFilter: string, stockFilter: string): seq<Product>
  {
    Filter(products, (p: Product) => Matches(p, searchQuery, categoryFilter, stockFilter))
  }

  /** "low", "out" and "in" are the shared stock levels; "in" and "low" split every product. */
  lemma StockFilterMeaning(p: Product)
    ensures MatchesStock(p, "low") <==> IsLowStock(p)
    ensures MatchesStock(p, "out") <==> IsOutOfStock(p)
    ensures MatchesStock(p, "in") <==> IsInStock(p)
    ensures MatchesStock(p, "in") != MatchesStock(p, "low")
    ensures MatchesStock(p, "all")
  {
  }

  /** Exactly the products that match all three filters, in their original order. */
  lemma FilteredExactly(products: seq<Product>, searchQuery: string, categoryFilter: string, stockFilter: string)
    ensures var r := Filtered(products, searchQuery, categoryFilter, stockFilter);
            && (forall i :: 0 <= i < |r| ==>
                  && r[i] in products
                  && Text.Includes(Text.Lower(r[i].name), Text.Lower(searchQuery))
                  && (categoryFilter == "all" || r[i].category == categoryFilter)
                  && MatchesStock(r[i], stockFilter))
            && (forall k :: 0 <= k < |products| && Matches(products[k], searchQuery, categoryFilter, stockFilter) ==>
                  products[k] in r)
            && IsSubsequence(r, products)
  {
  }

  /** An empty query and "all" everywhere keep every product. */
  lemma NoFilterKeepsAll(products: seq<Product>)
    ensures Filtered(products, "", "all", "all") == products
  {
    forall p | p in products
      ensures Matches(p, "", "all", "all")
    {
      Text.IncludesEmpty(Text.Lower(p.name));
    }
    FilterAll(products, (p: Product) => Matches(p, "", "all", "all"));
  }

  // ---------------------------------------------------------------------
  // The sort

  datatype SortOrder = Asc | Desc

  /** The comparison for the `sortBy` key; an unknown key compares everything equal. */
  function Comparison(sortBy: string, a: Product, b: Product): int
  {
    if sortBy == "name" then Text.CompareStrings(a.name, b.name)
    else if sortBy == "quantity" then a.quantity - b.quantity
    else if sortBy == "price" then a.sellingPrice - b.sellingPrice
    else if sortBy == "updated" then b.updatedAt - a.updatedAt
    else 0
  }

  function Directed(c: int, order: SortOrder): int
  {
    if order == Asc then c else -c
  }

  function ProductOrder(sortBy: string, order: SortOrder): (Product, Product) -> int
  {
    (a: Product, b: Product) => Directed(Comparison(sortBy, a, b), order)
  }

  function FilteredProducts(products: seq<Product>, searchQuery: string, categoryFilter: string,
                            stockFilter: string, sortBy: string, order: SortOrder): seq<Product>
  {
    SortBy(Filtered(products, searchQuery, categoryFilter, stockFilter), ProductOrder(sortBy, order))
  }

  lemma ComparisonAntisymmetric(sortBy: string, a: Product, b: Product)
    ensures Comparison(sortBy, a, b) == -Comparison(sortBy, b, a)
  {
    if sortBy == "name" {
      Text.CompareStringsAntisymmetric(a.name, b.name);
    }
  }

  lemma ComparisonTransitive(sortBy: string, a: Product, b: Product, c: Product)
    requires Comparison(sortBy, a, b) <= 0 && Comparison(sortBy, b, c) <= 0
    ensures Comparison(sortBy, a, c) <= 0
  {
    if sortBy == "name" {
      Text.CompareStringsTransitive(a.name, b.name, c.name);
    }
  }

  /** Every key, in either direction, orders products consistently. */
  lemma ProductOrderIsTotalPreorder(sortBy: string, order: SortOrder)
    ensures TotalPreorder(ProductOrder(sortBy, order))
  {
    var cmp := ProductOrder(sortBy, order);
    forall a: Product, b: Product
      ensures cmp(a, b) <= 0 || cmp(b, a) <= 0
    {
      ComparisonAntisymmetric(sortBy, a, b);
    }
    forall a: Product, b: Product, c: Product | cmp(a, b) <= 0 && cmp(b, c) <= 0
      ensures cmp(a, c) <= 0
    {
      if order == Asc {
        ComparisonTransitive(sortBy, a, b, c);
      } else {
        ComparisonAntisymmetric(sortBy, a, b);
        ComparisonAntisymmetric(sortBy, b, c);
        ComparisonAntisymmetric(sortBy, a, c);
        ComparisonTransitive(sortBy, c, b, a);
      }
    }
  }

  /** The listed products are the filtered ones, rearranged, and appear in the
      chosen order: by name, quantity or selling price ascending, newest
      update first for "updated", and the reverse of each under Desc. */
  lemma FilteredProductsSortedPermutation(products: seq<Product>, searchQuery: string, categoryFilter: string,
                                          stockFilter: string, sortBy: string, order: SortOrder)
    ensures var r := FilteredProducts(products, searchQuery, categoryFilter, stockFilter, sortBy, order);
            && multiset(r) == multiset(Filtered(products, searchQuery, categoryFilter, stockFilter))
            && (forall i, j :: 0 <= i < j < |r| ==> Directed(Comparison(sortBy, r[i], r[j]), order) <= 0)
  {
    ProductOrderIsTotalPreorder(sortBy, order);
    SortBySorted(Filtered(products, searchQuery, categoryFilter, stockFilter), ProductOrder(sortBy, order));
  }

  /** The products that rank level with `x` under the `sortBy` key. */
  function SameRank(sortBy: string, x: Product): Product -> bool
  {
    (p: Product) => Comparison(sortBy, p, x) == 0
  }

  /** The sort is stable: products that rank level keep the order they have
      in the filtered list, in either direction, so the listing is fully
      determined by the filters and the sort state. */
  lemma FilteredProductsStable(products: seq<Product>, searchQuery: string, categoryFilter: string,
                               stockFilter: string, sortBy: string, order: SortOrder, x: Product)
    ensures Filter(FilteredProducts(products, searchQuery, categoryFilter, stockFilter, sortBy, order), SameRank(sortBy, x))
         == Filter(Filtered(products, searchQuery, categoryFilter, stockFilter), SameRank(sortBy, x))
  {
    var filtered := Filtered(products, searchQuery, categoryFilter, stockFilter);
    var cmp := ProductOrder(sortBy, order);
    ProductOrderIsTotalPreorder(sortBy, order);
    SortByStable(filtered, cmp, x);
    forall p: Product
      ensures TiedWith(cmp, x)(p) == SameRank(sortBy, x)(p)
    {
      ComparisonAntisymmetric(sortBy, p, x);
    }
    FilterExt(SortBy(filtered, cmp), TiedWith(cmp, x), SameRank(sortBy, x));
    FilterExt(filtered, TiedWith(cmp, x), SameRank(sortBy, x));
  }

  /** Under "quantity" ascending the first listed product has the smallest quantity. */
  lemma QuantitySortPutsSmallestFirst(products: seq<Product>, sortBy: string, x: Product)
    requires sortBy == "quantity"
    requires x in products
    ensures var r := FilteredProducts(products, "", "all", "all", sortBy, Asc);
            |r| > 0 && r[0].quantity <= x.quantity
  {
    var r := FilteredProducts(products, "", "all", "all", sortBy, Asc);
    NoFilterKeepsAll(products);
    ProductOrderIsTotalPreorder(sortBy, Asc);
    SortBySorted(products, ProductOrder(sortBy, Asc));
    assert x in multiset(r);
    SortedHeadIsLeast(r, ProductOrder(sortBy, Asc), x);
  }

  // ---------------------------------------------------------------------
  // Summary figures

  function StockValue(p: Product): int
  {
    p.quantity * p.sellingPrice
  }

  /** `products.reduce((sum, p) => sum + p.quantity * p.sellingPrice, 0)`. */
  function TotalValue(products: seq<Product>): int
  {
    Sum(products, StockValue)
  }

  /** With no negative quantities or prices the stock is worth at least zero,
      and each product's own worth is part of the total. */
  lemma TotalValueBounds(products: seq<Product>, k: nat)
    requires forall p :: p in products ==> p.quantity >= 0 && p.sellingPrice >= 0
    requires k < |products|
    ensures 0 <= StockValue(products[k]) <= TotalValue(products)
  {
    var front, back := products[..k], products[k + 1..];
    assert products == (front + [products[k]]) + back;
    forall p | p in front ensures StockValue(p) >= 0 {
      assert p in products;
      NonNegativeWorth(p);
    }
    forall p | p in back ensures StockValue(p) >= 0 {
      assert p in products;
      NonNegativeWorth(p);
    }
    NonNegativeWorth(products[k]);
    SumAppend(front + [products[k]], back, StockValue);
    SumSnoc(front, products[k], StockValue);
    SumNonNegative(front, StockValue);
    SumNonNegative(back, StockValue);
  }

  lemma NonNegativeWorth(p: Product)
    requires p.quantity >= 0 && p.sellingPrice >= 0
    ensures StockValue(p) >= 0
  {
  }

  // ---------------------------------------------------------------------
  // The sort header

  datatype SortState = SortState(sortBy: string, order: SortOrder)

  /** Clicking the current column flips the order; another column becomes the
      key, ascending. */
  function Toggled(s: SortState, field: string): (r: SortState)
    ensures r.sortBy == field
    ensures s.sortBy == field ==> r.order != s.order
    ensures s.sortBy != field ==> r.order == Asc
  {
    if s.sortBy == field then SortState(field, if s.order == Asc then Desc else Asc)
    else SortState(field, Asc)
  }

  /** Clicking the same header twice restores the order. */
  lemma ToggleTwiceRestores(s: SortState)
    ensures Toggled(Toggled(s, s.sortBy), s.sortBy) == s
  {
  }

  class SortControl {
    var sortBy: string
    var sortOrder: SortOrder

    function State(): SortState
      reads this
    {
      SortState(sortBy, sortOrder)
    }

    constructor ()
      ensures State() == SortState("name", Asc)
    {
      sortBy := "name";
      sortOrder := Asc;
    }

    method ToggleSort(field: string)
      modifies this
      ensures State() == Toggled(old(State()), field)
    {
      if sortBy == field {
        sortOrder := if sortOrder == Asc then Desc else Asc;
      } else {
        sortBy := field;
        sortOrder := Asc;
      }
    }
  }
}
