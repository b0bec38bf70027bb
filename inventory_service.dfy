/** `InventoryService`: stock changes that recompute a product's status,
    and the low-stock and summary queries over the store's products. */
module InventoryService {
  import opened Collections
  import opened Schema
  import opened Tables
  import opened Storage

  /** The status `updateStock` gives a new quantity: out of stock at zero
      or below, low stock up to the reorder point, in stock above it. A null
      reorder point compares as 0, as `newQuantity <= null` does. Each
      status name is given exactly in its own range. */
  function StockStatus(quantity: int, reorderPoint: Option<int>): (s: string)
    ensures s == "out_of_stock" <==> quantity <= 0
    ensures s == "low_stock" <==> 0 < quantity <= Pick(reorderPoint, 0)
    ensures s == "in_stock" <==> quantity > 0 && quantity > Pick(reorderPoint, 0)
  {
    var point := if reorderPoint.Some? then reorderPoint.value else 0;
    if quantity <= 0 then "out_of_stock"
    else if quantity <= point then "low_stock"
    else "in_stock"
  }

  /** A product whose status is the one its quantity calls for. */
  predicate StatusConsistent(p: Product)
  {
    p.status == Some(StockStatus(p.quantity, p.reorderPoint))
  }

  /** The update `{ quantity: newQuantity, status }`. */
  function StockPatch(quantity: int, status: string): ProductPatch
  {
    NoProductChanges.(quantity := Some(quantity), status := Some(Some(status)))
  }

  /** A product after `updateStock(id, delta)` at `now`: its quantity moves
      by `delta` with no clamping, its status follows the new quantity, and
      nothing but `updatedAt` changes besides. */
  function Restocked(p: Product, delta: int, now: Timestamp): (q: Product)
    ensures q == p.(quantity := p.quantity + delta, status := Some(StockStatus(p.quantity + delta, p.reorderPoint)),
                    updatedAt := now)
  {
    MergeProduct(p, StockPatch(p.quantity + delta, StockStatus(p.quantity + delta, p.reorderPoint)), now)
  }

  /** A restocked product is consistent, and is out of stock exactly when
      its quantity has dropped to zero or below. */
  lemma RestockedStatus(p: Product, delta: int, now: Timestamp)
    ensures StatusConsistent(Restocked(p, delta, now))
    ensures Restocked(p, delta, now).status == Some("out_of_stock") <==> p.quantity + delta <= 0
    ensures Restocked(p, delta, now).status == Some("low_stock")
            <==> 0 < p.quantity + delta <= Pick(p.reorderPoint, 0)
  {
  }

  /** Two stock changes in a row are one change by their sum. */
  lemma RestockedTwice(p: Product, a: int, b: int, t1: Timestamp, t2: Timestamp)
    ensures Restocked(Restocked(p, a, t1), b, t2) == Restocked(p, a + b, t2)
  {
  }

  /** A zero change to a consistent product only refreshes `updatedAt`. */
  lemma RestockedZero(p: Product, now: Timestamp)
    requires StatusConsistent(p)
    ensures Restocked(p, 0, now) == p.(updatedAt := now)
  {
  }

  /** `updateStock`: nothing happens for an unknown id; otherwise the
      product is replaced, in place, by its restocked version. */
  method UpdateStock(store: MemStorage, id: int, delta: int, now: Timestamp) returns (r: Option<Product>)
    requires store.Valid()
    modifies store`products
    ensures store.Valid()
    ensures id !in old(store.products.rows) ==> r.None? && store.products == old(store.products)
    ensures id in old(store.products.rows) ==>
              r == Some(Restocked(old(store.products.rows[id]), delta, now))
              && store.products == Put(old(store.products), id, r.value)
  {
    var product := Get(store.products, id);
    if product.None? {
      return None;
    }
    var p := product.value;
    var newQuantity := p.quantity + delta;
    var status := p.status;
    var point := if p.reorderPoint.Some? then p.reorderPoint.value else 0;
    if newQuantity <= 0 {
      status := Some("out_of_stock");
    } else if newQuantity <= point {
      status := Some("low_stock");
    } else {
      status := Some("in_stock");
    }
    r := store.UpdateProduct(id, NoProductChanges.(quantity := Some(newQuantity), status := Some(status)), now);
  }

  /** The product after `setRestockDate(id, date)`. */
  function WithRestockDate(p: Product, date: Timestamp, now: Timestamp): (q: Product)
    ensures q == p.(nextRestock := Some(date), updatedAt := now)
  {
    MergeProduct(p, NoProductChanges.(nextRestock := Some(Some(date))), now)
  }

  /** `setRestockDate`. */
  method SetRestockDate(store: MemStorage, id: int, date: Timestamp, now: Timestamp) returns (r: Option<Product>)
    requires store.Valid()
    modifies store`products
    ensures store.Valid()
    ensures id !in old(store.products.rows) ==> r.None? && store.products == old(store.products)
    ensures id in old(store.products.rows) ==>
              r == Some(WithRestockDate(old(store.products.rows[id]), date, now))
              && store.products == Put(old(store.products), id, r.value)
  {
    r := store.UpdateProduct(id, NoProductChanges.(nextRestock := Some(Some(date))), now);
  }

  predicate NeedsReorder(p: Product)
  {
    p.status == Some("low_stock") || p.status == Some("out_of_stock")
  }

  /** `getLowStockProducts`: the low and out-of-stock products. */
  function LowStockProducts(ps: seq<Product>): (r: seq<Product>)
    ensures forall p :: p in r <==> p in ps && NeedsReorder(p)
    ensures |r| == Count(ps, NeedsReorder)
  {
    Filter(ps, NeedsReorder)
  }

  /** The query keeps store order: on a concatenation it is the two
      results one after the other. */
  lemma LowStockInOrder(a: seq<Product>, b: seq<Product>)
    ensures LowStockProducts(a + b) == LowStockProducts(a) + LowStockProducts(b)
  {
    FilterAppend(a, b, NeedsReorder);
  }

  /** The status as the comparisons `p.status === "..."` see it; a null
      status equals none of the status names. */
  function ProductStatus(p: Product): string
  {
    if p.status.Some? then p.status.value else ""
  }

  const ProductStatuses: seq<string> := ["in_stock", "low_stock", "out_of_stock"]

  /** The result of `getInventorySummary`; `averageStock` is an exact
      rational here. */
  datatype InventorySummary = InventorySummary(totalProducts: nat, inStock: nat, lowStock: nat, outOfStock: nat,
                                               averageStock: real)

  /** `products.reduce((sum, p) => sum + p.quantity, 0)`. */
  function TotalStock(ps: seq<Product>): int
  {
    if ps == [] then 0 else TotalStock(ps[..|ps| - 1]) + ps[|ps| - 1].quantity
  }

  /** The mean quantity, 0 for no products. */
  function AverageStock(ps: seq<Product>): (avg: real)
    ensures |ps| == 0 ==> avg == 0.0
    ensures |ps| > 0 ==> avg * (|ps| as real) == TotalStock(ps) as real
  {
    if |ps| > 0 then (TotalStock(ps) as real) / (|ps| as real) else 0.0
  }

  /** `getInventorySummary`: the product count, the count per status
      name, which together never exceed the product count, and the mean
      quantity. */
  function Summarize(ps: seq<Product>): (r: InventorySummary)
    ensures r.totalProducts == |ps|
    ensures r.inStock == CountKey(ps, ProductStatus, "in_stock")
    ensures r.lowStock == CountKey(ps, ProductStatus, "low_stock")
    ensures r.outOfStock == CountKey(ps, ProductStatus, "out_of_stock")
    ensures r.inStock + r.lowStock + r.outOfStock <= r.totalProducts
    ensures r.averageStock == AverageStock(ps)
  {
    SumCountsBound(ps, ProductStatus, ProductStatuses);
    SumCountsThree(ps, ProductStatus, "in_stock", "low_stock", "out_of_stock");
    InventorySummary(|ps|, CountKey(ps, ProductStatus, "in_stock"), CountKey(ps, ProductStatus, "low_stock"),
                     CountKey(ps, ProductStatus, "out_of_stock"), AverageStock(ps))
  }

  predicate QuantitiesWithin(ps: seq<Product>, lo: int, hi: int)
  {
    forall i :: 0 <= i < |ps| ==> lo <= ps[i].quantity <= hi
  }

  lemma {:induction false} TotalStockWithin(ps: seq<Product>, lo: int, hi: int)
    requires QuantitiesWithin(ps, lo, hi)
    ensures |ps| * lo <= TotalStock(ps) <= |ps| * hi
    decreases |ps|
  {
    if ps != [] {
      var front := ps[..|ps| - 1];
      assert QuantitiesWithin(front, lo, hi) by {
        forall i | 0 <= i < |front| ensures lo <= front[i].quantity <= hi {
          assert front[i] == ps[i];
        }
      }
      TotalStockWithin(front, lo, hi);
      assert lo <= ps[|ps| - 1].quantity <= hi;
      assert |ps| * lo == |front| * lo + lo;
      assert |ps| * hi == |front| * hi + hi;
    }
  }

  /** Multiplying by a positive number keeps order. */
  lemma ScaleMonotone(n: real, a: real, b: real)
    requires n > 0.0 && a < b
    ensures n * a < n * b
  {
    assert n * b - n * a == n * (b - a);
  }

  /** An integer bound scaled by `n` carries over to the quotient. */
  lemma QuotientWithin(t: int, n: int, lo: int, hi: int)
    requires n > 0 && n * lo <= t <= n * hi
    ensures lo as real <= (t as real) / (n as real) <= hi as real
  {
    var q := (t as real) / (n as real);
    assert q * (n as real) == t as real;
    assert ((n * lo) as real) == (n as real) * (lo as real);
    assert ((n * hi) as real) == (n as real) * (hi as real);
    if q < lo as real {
      ScaleMonotone(n as real, q, lo as real);
    }
    if hi as real < q {
      ScaleMonotone(n as real, hi as real, q);
    }
  }

  /** The mean lies between the smallest and the largest quantity. */
  lemma AverageWithin(ps: seq<Product>, lo: int, hi: int)
    requires |ps| > 0 && QuantitiesWithin(ps, lo, hi)
    ensures lo as real <= AverageStock(ps) <= hi as real
  {
    TotalStockWithin(ps, lo, hi);
    QuotientWithin(TotalStock(ps), |ps|, lo, hi);
  }

  /** When every status is consistent, a product is counted as in stock,
      low or out exactly by its quantity, so the three counts add up to the
      number of products. */
  lemma {:induction false} ConsistentSummaryComplete(ps: seq<Product>)
    requires forall i :: 0 <= i < |ps| ==> StatusConsistent(ps[i])
    ensures var r := Summarize(ps); r.inStock + r.lowStock + r.outOfStock == r.totalProducts
    decreases |ps|
  {
    if ps != [] {
      ConsistentSummaryComplete(ps[1..]);
      assert StatusConsistent(ps[0]);
    }
  }
}
