/** `OrderService`: creating an order takes the ordered quantities out of
    stock one item at a time; plus the status update and the per-status
    counts. */
module OrderService {
  import opened Collections
  import opened Schema
  import opened Tables
  import opened Storage
  import opened InventoryService

  /** `item.productId && item.quantity`: both keys present and non-zero
      (0 is falsy). */
  predicate Applies(item: OrderItem)
  {
    item.productId.Some? && item.productId.value != 0 && item.quantity.Some? && item.quantity.value != 0
  }

  /** The item takes stock from product `id`. */
  predicate Names(item: OrderItem, id: int)
  {
    Applies(item) && item.productId.value == id
  }

  /** Some item of the order takes stock from product `id`. */
  predicate Touched(items: seq<OrderItem>, id: int)
  {
    items != [] && (Touched(items[..|items| - 1], id) || Names(items[|items| - 1], id))
  }

  /** The quantity the order takes from product `id`, summed over every
      item that names it. */
  function Ordered(items: seq<OrderItem>, id: int): int
  {
    if items == [] then 0
    else Ordered(items[..|items| - 1], id) + (if Names(items[|items| - 1], id) then items[|items| - 1].quantity.value else 0)
  }

  /** The products after one loop iteration: `updateStock(productId,
      -quantity)` when the item applies, which itself changes nothing for
      an unknown product. */
  function ApplyItem(t: Table<Product>, item: OrderItem, now: Timestamp): (r: Table<Product>)
    ensures r.rows.Keys == t.rows.Keys && r.order == t.order && r.nextId == t.nextId
  {
    if Applies(item) && item.productId.value in t.rows then
      var id := item.productId.value;
      t.(rows := t.rows[id := Restocked(t.rows[id], -item.quantity.value, now)])
    else t
  }

  /** The products after the loop over `items`, in item order. */
  function ApplyItems(t: Table<Product>, items: seq<OrderItem>, now: Timestamp): (r: Table<Product>)
    ensures r.rows.Keys == t.rows.Keys && r.order == t.order && r.nextId == t.nextId
  {
    if items == [] then t
    else ApplyItem(ApplyItems(t, items[..|items| - 1], now), items[|items| - 1], now)
  }

  /** One item changes only the product it names. */
  lemma ApplyItemAt(t: Table<Product>, item: OrderItem, now: Timestamp, id: int)
    requires id in t.rows
    ensures ApplyItem(t, item, now).rows[id]
         == if Names(item, id) then Restocked(t.rows[id], -item.quantity.value, now) else t.rows[id]
  {
  }

  /** `Touched` holds exactly when some item names the product. */
  lemma {:induction false} TouchedIff(items: seq<OrderItem>, id: int)
    ensures Touched(items, id) <==> exists i :: 0 <= i < |items| && Names(items[i], id)
    decreases |items|
  {
    if items != [] {
      var front := items[..|items| - 1];
      TouchedIff(front, id);
      if Touched(front, id) {
        var i :| 0 <= i < |front| && Names(front[i], id);
        assert items[i] == front[i];
      }
      if i :| 0 <= i < |items| && Names(items[i], id) {
        if i < |front| {
          assert front[i] == items[i];
        }
      }
    }
  }

  /** A product that no item names is left exactly as it was, and the
      order takes 0 of it. */
  lemma {:induction false} ApplyItemsUntouched(t: Table<Product>, items: seq<OrderItem>, now: Timestamp, id: int)
    requires id in t.rows && !Touched(items, id)
    ensures Ordered(items, id) == 0 && ApplyItems(t, items, now).rows[id] == t.rows[id]
    decreases |items|
  {
    if items != [] {
      var front := items[..|items| - 1];
      var last := items[|items| - 1];
      var r0 := ApplyItems(t, front, now);
        ApplyItemsUntouched(t, front, now, id);
      ApplyItemAt(r0, last, now, id);
      assert ApplyItems(t, items, now) == ApplyItem(r0, last, now);
    }
  }

  /** A product that some items name is restocked once by minus the sum of
      their quantities, so two items for the same product take stock
      cumulatively. */
  lemma {:induction false} ApplyItemsTouched(t: Table<Product>, items: seq<OrderItem>, now: Timestamp, id: int)
    requires id in t.rows && Touched(items, id)
    ensures ApplyItems(t, items, now).rows[id] == Restocked(t.rows[id], -Ordered(items, id), now)
    decreases |items|
  {
    var front := items[..|items| - 1];
    var last := items[|items| - 1];
    var r0 := ApplyItems(t, front, now);
    ApplyItemAt(r0, last, now, id);
    assert ApplyItems(t, items, now) == ApplyItem(r0, last, now);
    assert Ordered(items, id) == Ordered(front, id) + if Names(last, id) then last.quantity.value else 0;
    if Touched(front, id) {
      ApplyItemsTouched(t, front, now, id);
      if Names(last, id) {
        RestockedTwice(t.rows[id], -Ordered(front, id), -last.quantity.value, now, now);
      }
    } else {
      ApplyItemsUntouched(t, front, now, id);
    }
  }

  /** What an order does to one product, both cases together. */
  lemma ApplyItemsEffect(t: Table<Product>, items: seq<OrderItem>, now: Timestamp, id: int)
    requires id in t.rows
    ensures !Touched(items, id) ==> Ordered(items, id) == 0 && ApplyItems(t, items, now).rows[id] == t.rows[id]
    ensures Touched(items, id) ==> ApplyItems(t, items, now).rows[id] == Restocked(t.rows[id], -Ordered(items, id), now)
  {
    if Touched(items, id) {
      ApplyItemsTouched(t, items, now, id);
    } else {
      ApplyItemsUntouched(t, items, now, id);
    }
  }

  /** Nothing but quantity, status and `updatedAt` of any product changes,
      and every changed status is the one its new quantity calls for. */
  lemma ApplyItemsFields(t: Table<Product>, items: seq<OrderItem>, now: Timestamp, id: int)
    requires id in t.rows
    ensures var p, q := t.rows[id], ApplyItems(t, items, now).rows[id];
            q.(quantity := p.quantity, status := p.status, updatedAt := p.updatedAt) == p
            && (Touched(items, id) ==> StatusConsistent(q) && q.updatedAt == now)
  {
    ApplyItemsEffect(t, items, now, id);
  }

  /** One iteration of the loop of `createOrder`. */
  method TakeItem(store: MemStorage, item: OrderItem, now: Timestamp)
    requires store.Valid()
    modifies store`products
    ensures store.Valid()
    ensures store.products == ApplyItem(old(store.products), item, now)
  {
    if item.productId.Some? && item.productId.value != 0 && item.quantity.Some? && item.quantity.value != 0 {
      var _ := UpdateStock(store, item.productId.value, -item.quantity.value, now);
    }
  }

  /** The loop of `createOrder`: `updateStock(productId, -quantity)` for
      each item that applies, in item order. */
  method TakeStock(store: MemStorage, items: seq<OrderItem>, now: Timestamp)
    requires store.Valid()
    modifies store`products
    ensures store.Valid()
    ensures store.products == ApplyItems(old(store.products), items, now)
  {
    ghost var stock := store.products;
    for k := 0 to |items|
      invariant store.Valid()
      invariant store.products == ApplyItems(stock, items[..k], now)
    {
      assert items[..k + 1][..k] == items[..k];
      TakeItem(store, items[k], now);
    }
    assert items[..|items|] == items;
  }

  /** `createOrder`: the order is stored first, under the next order id,
      then each of its items takes its quantity from stock, in item order. */
  method CreateOrder(store: MemStorage, input: OrderInput, now: Timestamp) returns (o: Order)
    requires store.Valid()
    modifies store`orders, store`products
    ensures store.Valid()
    ensures o == Order(old(store.orders.nextId), input.orderNumber, input.status, input.total,
                       input.customerName, input.customerEmail, input.items, now, now)
    ensures o.id !in old(store.orders.rows)
    ensures store.orders == Insert(old(store.orders), o)
    ensures store.products == ApplyItems(old(store.products), input.items, now)
  {
    o := store.CreateOrder(input, now);
    TakeStock(store, o.items, now);
  }

  /** `updateOrderStatus`: nothing happens for an unknown id; otherwise
      only that order's status and `updatedAt` change. */
  method UpdateOrderStatus(store: MemStorage, id: int, status: string, now: Timestamp) returns (r: Option<Order>)
    requires store.Valid()
    modifies store`orders
    ensures store.Valid()
    ensures id !in old(store.orders.rows) ==> r.None? && store.orders == old(store.orders)
    ensures id in old(store.orders.rows) ==>
              r == Some(old(store.orders.rows[id]).(status := Some(status), updatedAt := now))
              && store.orders == Put(old(store.orders), id, r.value)
  {
    r := store.UpdateOrder(id, NoOrderChanges.(status := Some(Some(status))), now);
  }

  /** The status as `o.status === "..."` sees it. */
  function OrderStatus(o: Order): string
  {
    if o.status.Some? then o.status.value else ""
  }

  /** The counts of `getOrdersSummary`. */
  datatype OrdersSummary = OrdersSummary(totalOrders: nat, pendingOrders: nat, processingOrders: nat,
                                         completedOrders: nat, shippedOrders: nat, cancelledOrders: nat)

  const OrderStatuses: seq<string> := ["pending", "processing", "completed", "shipped", "cancelled"]

  /** `getOrdersSummary`: the order count and the count per status name,
      which together never exceed the order count. */
  function Summarize(os: seq<Order>): (r: OrdersSummary)
    ensures r.totalOrders == |os|
    ensures r.pendingOrders == CountKey(os, OrderStatus, "pending")
    ensures r.processingOrders == CountKey(os, OrderStatus, "processing")
    ensures r.completedOrders == CountKey(os, OrderStatus, "completed")
    ensures r.shippedOrders == CountKey(os, OrderStatus, "shipped")
    ensures r.cancelledOrders == CountKey(os, OrderStatus, "cancelled")
    ensures r.pendingOrders + r.processingOrders + r.completedOrders + r.shippedOrders + r.cancelledOrders
            <= r.totalOrders
  {
    SumCountsBound(os, OrderStatus, OrderStatuses);
    SumCountsFive(os, OrderStatus, "pending", "processing", "completed", "shipped", "cancelled");
    OrdersSummary(|os|, CountKey(os, OrderStatus, "pending"), CountKey(os, OrderStatus, "processing"),
                  CountKey(os, OrderStatus, "completed"), CountKey(os, OrderStatus, "shipped"),
                  CountKey(os, OrderStatus, "cancelled"))
  }
}
