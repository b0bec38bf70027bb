/** `MemStorage`: one table per entity, each with its own id counter
    starting at 1, plus the find/filter queries over the tables' records in
    insertion order. Every timestamp a method stamps is its `now`
    argument. */
module Storage {
  import opened Collections
  import opened JsText
  import opened Schema
  import opened Tables

  /** The value a spread `{ ...record, ...updates }` keeps for one key. */
  function Pick<T>(o: Option<T>, d: T): T
  {
    if o.Some? then o.value else d
  }

  /** The later of two optional keys, as `{ ...u, ...v }` has it. */
  function Or<T>(v: Option<T>, u: Option<T>): Option<T>
  {
    if v.Some? then v else u
  }

  // ----- Merging partial updates -----

  /** `{ ...product, ...updates, updatedAt: now }`. */
  function MergeProduct(p: Product, u: ProductPatch, now: Timestamp): Product
  {
    Product(Pick(u.id, p.id), Pick(u.name, p.name), Pick(u.sku, p.sku),
            Pick(u.description, p.description), Pick(u.price, p.price),
            Pick(u.quantity, p.quantity), Pick(u.status, p.status),
            Pick(u.category, p.category), Pick(u.reorderPoint, p.reorderPoint),
            Pick(u.nextRestock, p.nextRestock), Pick(u.imageUrl, p.imageUrl),
            Pick(u.createdAt, p.createdAt), now)
  }

  /** The patch `{ ...u, ...v }`: keys of `v` win. */
  function ThenProduct(u: ProductPatch, v: ProductPatch): ProductPatch
  {
    ProductPatch(Or(v.id, u.id), Or(v.name, u.name), Or(v.sku, u.sku),
                 Or(v.description, u.description), Or(v.price, u.price),
                 Or(v.quantity, u.quantity), Or(v.status, u.status),
                 Or(v.category, u.category), Or(v.reorderPoint, u.reorderPoint),
                 Or(v.nextRestock, u.nextRestock), Or(v.imageUrl, u.imageUrl),
                 Or(v.createdAt, u.createdAt))
  }

  /** An update without keys only refreshes `updatedAt`. */
  lemma MergeProductEmpty(p: Product, now: Timestamp)
    ensures MergeProduct(p, NoProductChanges, now) == p.(updatedAt := now)
  {
  }

  /** Two updates in a row equal one update with the combined keys, the
      later update's keys winning; so repeating an update changes nothing
      but `updatedAt`. */
  lemma MergeProductTwice(p: Product, u: ProductPatch, v: ProductPatch, t1: Timestamp, t2: Timestamp)
    ensures MergeProduct(MergeProduct(p, u, t1), v, t2) == MergeProduct(p, ThenProduct(u, v), t2)
    ensures MergeProduct(MergeProduct(p, u, t1), u, t2) == MergeProduct(p, u, t2)
  {
  }

  /** `{ ...order, ...updates, updatedAt: now }`. */
  function MergeOrder(o: Order, u: OrderPatch, now: Timestamp): Order
  {
    Order(Pick(u.id, o.id), Pick(u.orderNumber, o.orderNumber), Pick(u.status, o.status),
          Pick(u.total, o.total), Pick(u.customerName, o.customerName),
          Pick(u.customerEmail, o.customerEmail), Pick(u.items, o.items),
          Pick(u.createdAt, o.createdAt), now)
  }

  const NoOrderChanges := OrderPatch(None, None, None, None, None, None, None, None)

  lemma MergeOrderEmpty(o: Order, now: Timestamp)
    ensures MergeOrder(o, NoOrderChanges, now) == o.(updatedAt := now)
  {
  }

  lemma MergeOrderTwice(o: Order, u: OrderPatch, t1: Timestamp, t2: Timestamp)
    ensures MergeOrder(MergeOrder(o, u, t1), u, t2) == MergeOrder(o, u, t2)
  {
  }

  /** `{ ...conversation, ...updates, updatedAt: now }`. */
  function MergeConversation(c: Conversation, u: ConversationPatch, now: Timestamp): Conversation
  {
    Conversation(c.id, Pick(u.userId, c.userId), Pick(u.intent, c.intent),
                 Pick(u.messages, c.messages), Pick(u.active, c.active),
                 Pick(u.createdAt, c.createdAt), now)
  }

  const NoConversationChanges := ConversationPatch(None, None, None, None, None)

  lemma MergeConversationEmpty(c: Conversation, now: Timestamp)
    ensures MergeConversation(c, NoConversationChanges, now) == c.(updatedAt := now)
  {
  }

  lemma MergeConversationTwice(c: Conversation, u: ConversationPatch, t1: Timestamp, t2: Timestamp)
    ensures MergeConversation(MergeConversation(c, u, t1), u, t2) == MergeConversation(c, u, t2)
  {
  }

  /** `{ ...analytics, ...updates }`: analytics have no `updatedAt`. */
  function MergeAnalytics(a: Analytics, u: AnalyticsPatch): Analytics
  {
    Analytics(Pick(u.id, a.id), Pick(u.date, a.date), Pick(u.intentCounts, a.intentCounts),
              Pick(u.intentAccuracy, a.intentAccuracy),
              Pick(u.activeConversations, a.activeConversations),
              Pick(u.completedConversations, a.completedConversations),
              Pick(u.avgResponseTime, a.avgResponseTime))
  }

  const NoAnalyticsChanges := AnalyticsPatch(None, None, None, None, None, None, None)

  lemma MergeAnalyticsLaws(a: Analytics, u: AnalyticsPatch)
    ensures MergeAnalytics(a, NoAnalyticsChanges) == a
    ensures MergeAnalytics(MergeAnalytics(a, u), u) == MergeAnalytics(a, u)
  {
  }

  // ----- Queries over the records in insertion order -----

  /** `getUserByUsername`: the first user with exactly that name. */
  function UserByUsername(us: seq<User>, username: string): (r: Option<User>)
    ensures r.None? <==> forall i :: 0 <= i < |us| ==> us[i].username != username
    ensures r.Some? ==> r.value.username == username
    ensures r.Some? ==> exists i :: 0 <= i < |us| && us[i] == r.value && forall j :: 0 <= j < i ==> us[j].username != username
  {
    Find(us, (u: User) => u.username == username)
  }

  /** `getProductBySku`: the first product whose sku equals `sku`
      exactly. */
  function ProductBySku(ps: seq<Product>, sku: string): (r: Option<Product>)
    ensures r.None? <==> forall i :: 0 <= i < |ps| ==> ps[i].sku != sku
    ensures r.Some? ==> r.value.sku == sku
    ensures r.Some? ==> exists i :: 0 <= i < |ps| && ps[i] == r.value && forall j :: 0 <= j < i ==> ps[j].sku != sku
  {
    Find(ps, (p: Product) => p.sku == sku)
  }

  /** The product matches the lowercased query by name, by sku, or by a
      non-empty description; the empty query matches every product. */
  predicate MatchesQuery(p: Product, query: string)
    ensures query == [] ==> MatchesQuery(p, query)
  {
    var q := Lower(query);
    || Includes(Lower(p.name), q)
    || Includes(Lower(p.sku), q)
    || (p.description.Some? && p.description.value != "" && Includes(Lower(p.description.value), q))
  }

  /** `searchProducts`: the matching products, in insertion order. */
  function SearchProducts(ps: seq<Product>, query: string): (r: seq<Product>)
    ensures forall p :: p in r <==> p in ps && MatchesQuery(p, query)
    ensures |r| == Count(ps, (p: Product) => MatchesQuery(p, query))
  {
    Filter(ps, (p: Product) => MatchesQuery(p, query))
  }

  /** The search keeps store order: searching a concatenation searches
      each part in turn. */
  lemma SearchInOrder(a: seq<Product>, b: seq<Product>, query: string)
    ensures SearchProducts(a + b, query) == SearchProducts(a, query) + SearchProducts(b, query)
  {
    FilterAppend(a, b, (p: Product) => MatchesQuery(p, query));
  }

  /** The search ignores the case of the query. */
  lemma SearchIgnoresQueryCase(ps: seq<Product>, query: string)
    ensures SearchProducts(ps, Lower(query)) == SearchProducts(ps, query)
  {
    LowerIdempotent(query);
    FilterSame(ps, (p: Product) => MatchesQuery(p, Lower(query)), (p: Product) => MatchesQuery(p, query));
  }

  /** `getProductsByCategory`: exact, case-sensitive category equality. */
  function ProductsByCategory(ps: seq<Product>, category: string): (r: seq<Product>)
    ensures forall p :: p in r <==> p in ps && p.category == Some(category)
    ensures |r| == Count(ps, (p: Product) => p.category == Some(category))
  {
    Filter(ps, (p: Product) => p.category == Some(category))
  }

  /** `getOrderByNumber`: the first order with exactly that number. */
  function OrderByNumber(os: seq<Order>, orderNumber: string): (r: Option<Order>)
    ensures r.None? <==> forall i :: 0 <= i < |os| ==> os[i].orderNumber != orderNumber
    ensures r.Some? ==> r.value.orderNumber == orderNumber
    ensures r.Some? ==> exists i :: 0 <= i < |os| && os[i] == r.value && forall j :: 0 <= j < i ==> os[j].orderNumber != orderNumber
  {
    Find(os, (o: Order) => o.orderNumber == orderNumber)
  }

  /** `getActiveConversations`: the conversations whose `active` is true. */
  function ActiveConversations(cs: seq<Conversation>): (r: seq<Conversation>)
    ensures forall c :: c in r <==> c in cs && c.active == Some(true)
    ensures |r| <= |cs|
  {
    Filter(cs, (c: Conversation) => c.active == Some(true))
  }

  function OrderCreatedAt(o: Order): int { o.createdAt }

  /** `getRecentOrders(limit)`: sorted newest first, then cut to `limit`
      (a negative limit counts back from the end, as `slice` does). No
      order left out is newer than one returned, and orders placed at the
      same time come out in insertion order, the earliest-inserted of them
      kept. */
  function RecentOrders(os: seq<Order>, limit: int): (r: seq<Order>)
    ensures |r| == SliceEnd(|os|, limit)
    ensures limit >= 0 ==> |r| <= limit
    ensures SortedDesc(r, OrderCreatedAt)
    ensures multiset(r) <= multiset(os)
    ensures forall x, y :: x in r && y in multiset(os) - multiset(r) ==> y.createdAt <= x.createdAt
    ensures forall t :: WithKey(r, OrderCreatedAt, t) <= WithKey(os, OrderCreatedAt, t)
  {
    var sorted := SortDesc(os, OrderCreatedAt);
    var n := SliceEnd(|os|, limit);
    TopPrefix(sorted, OrderCreatedAt, n);
    assert sorted == sorted[..n] + sorted[n..];
    SortPrefixStable(os, OrderCreatedAt, n);
    sorted[..n]
  }

  function AnalyticsDate(a: Analytics): int { a.date }

  /** `getLatestAnalytics`: the first record, in insertion order, of
      those with the greatest date, or none when there are no records. */
  function LatestAnalytics(rs: seq<Analytics>): (r: Option<Analytics>)
    ensures r.None? <==> |rs| == 0
    ensures r.Some? ==> r.value in rs && forall a :: a in rs ==> a.date <= r.value.date
    ensures r.Some? ==> var same := WithKey(rs, AnalyticsDate, r.value.date);
                        |same| > 0 && same[0] == r.value
  {
    var sorted := SortDesc(rs, AnalyticsDate);
    if |sorted| == 0 then None
    else
      SortHeadFirst(rs, AnalyticsDate);
      Some(sorted[0])
  }

  // ----- The store -----

  class MemStorage {
    var users: Table<User>
    var products: Table<Product>
    var orders: Table<Order>
    var conversations: Table<Conversation>
    var analytics: Table<Analytics>

    /** Every table is well formed; users and conversations carry their
        own key as id (products, orders and analytics can have their `id`
        overwritten by an update, which does not move them). */
    ghost predicate Valid()
      reads this
    {
      && Tables.Valid(users) && Tables.Valid(products) && Tables.Valid(orders)
      && Tables.Valid(conversations) && Tables.Valid(analytics)
      && (forall k :: k in users.rows ==> users.rows[k].id == k)
      && (forall k :: k in conversations.rows ==> conversations.rows[k].id == k)
    }

    /** An empty store; every counter starts at 1. */
    constructor()
      ensures Valid()
      ensures users == Empty() && products == Empty() && orders == Empty()
      ensures conversations == Empty() && analytics == Empty()
    {
      users := Empty();
      products := Empty();
      orders := Empty();
      conversations := Empty();
      analytics := Empty();
    }

    function Users(): seq<User>
      reads this
      requires Valid()
    {
      Values(users)
    }

    function Products(): seq<Product>
      reads this
      requires Valid()
    {
      Values(products)
    }

    function Orders(): seq<Order>
      reads this
      requires Valid()
    {
      Values(orders)
    }

    function Conversations(): seq<Conversation>
      reads this
      requires Valid()
    {
      Values(conversations)
    }

    function AnalyticsRecords(): seq<Analytics>
      reads this
      requires Valid()
    {
      Values(analytics)
    }

    /** `createUser`: the new user takes the counter's id. */
    method CreateUser(input: UserInput, now: Timestamp) returns (u: User)
      requires Valid()
      modifies this`users
      ensures Valid()
      ensures u == User(old(users.nextId), input.username, input.password, input.fullName, input.role, now)
      ensures u.id !in old(users.rows) && users.nextId == old(users.nextId) + 1
      ensures users == Insert(old(users), u) && Users() == old(Users()) + [u]
    {
      u := User(users.nextId, input.username, input.password, input.fullName, input.role, now);
      users := Insert(users, u);
    }

    /** `createProduct`: the new product takes the counter's id, created
        and updated now. */
    method CreateProduct(input: ProductInput, now: Timestamp) returns (p: Product)
      requires Valid()
      modifies this`products
      ensures Valid()
      ensures p == Product(old(products.nextId), input.name, input.sku, input.description, input.price,
                           input.quantity, input.status, input.category, input.reorderPoint,
                           input.nextRestock, input.imageUrl, now, now)
      ensures p.id !in old(products.rows) && products.nextId == old(products.nextId) + 1
      ensures products == Insert(old(products), p) && Products() == old(Products()) + [p]
    {
      p := Product(products.nextId, input.name, input.sku, input.description, input.price,
                   input.quantity, input.status, input.category, input.reorderPoint,
                   input.nextRestock, input.imageUrl, now, now);
      products := Insert(products, p);
    }

    /** `updateProduct`: nothing happens for an unknown id; otherwise the
        keys of the update overwrite, the rest is kept, and the product
        keeps its key and its place. */
    method UpdateProduct(id: int, u: ProductPatch, now: Timestamp) returns (r: Option<Product>)
      requires Valid()
      modifies this`products
      ensures Valid()
      ensures id !in old(products.rows) ==> r.None? && products == old(products)
      ensures id in old(products.rows) ==>
                r == Some(MergeProduct(old(products.rows[id]), u, now)) && products == Put(old(products), id, r.value)
    {
      match Get(products, id)
      case None =>
        r := None;
      case Some(p) =>
        var updated := MergeProduct(p, u, now);
        products := Put(products, id, updated);
        r := Some(updated);
    }

    /** `deleteProduct`: true exactly when the id was present; the counter
        is untouched, so the id is never handed out again. */
    method DeleteProduct(id: int) returns (deleted: bool)
      requires Valid()
      modifies this`products
      ensures Valid()
      ensures deleted == (id in old(products.rows))
      ensures id !in products.rows && products == Delete(old(products), id)
      ensures products.nextId == old(products.nextId)
    {
      deleted := id in products.rows;
      products := Delete(products, id);
    }

    /** `createOrder` of the store: the new order takes the counter's id. */
    method CreateOrder(input: OrderInput, now: Timestamp) returns (o: Order)
      requires Valid()
      modifies this`orders
      ensures Valid()
      ensures o == Order(old(orders.nextId), input.orderNumber, input.status, input.total,
                         input.customerName, input.customerEmail, input.items, now, now)
      ensures o.id !in old(orders.rows) && orders.nextId == old(orders.nextId) + 1
      ensures orders == Insert(old(orders), o) && Orders() == old(Orders()) + [o]
    {
      o := Order(orders.nextId, input.orderNumber, input.status, input.total,
                 input.customerName, input.customerEmail, input.items, now, now);
      orders := Insert(orders, o);
    }

    /** `updateOrder`. */
    method UpdateOrder(id: int, u: OrderPatch, now: Timestamp) returns (r: Option<Order>)
      requires Valid()
      modifies this`orders
      ensures Valid()
      ensures id !in old(orders.rows) ==> r.None? && orders == old(orders)
      ensures id in old(orders.rows) ==>
                r == Some(MergeOrder(old(orders.rows[id]), u, now)) && orders == Put(old(orders), id, r.value)
    {
      match Get(orders, id)
      case None =>
        r := None;
      case Some(o) =>
        var updated := MergeOrder(o, u, now);
        orders := Put(orders, id, updated);
        r := Some(updated);
    }

    /** `createConversation`. */
    method CreateConversation(input: ConversationInput, now: Timestamp) returns (c: Conversation)
      requires Valid()
      modifies this`conversations
      ensures Valid()
      ensures c == Conversation(old(conversations.nextId), input.userId, input.intent, input.messages,
                                input.active, now, now)
      ensures c.id !in old(conversations.rows) && conversations.nextId == old(conversations.nextId) + 1
      ensures conversations == Insert(old(conversations), c) && Conversations() == old(Conversations()) + [c]
    {
      c := Conversation(conversations.nextId, input.userId, input.intent, input.messages,
                        input.active, now, now);
      conversations := Insert(conversations, c);
    }

    /** `updateConversation`. */
    method UpdateConversation(id: int, u: ConversationPatch, now: Timestamp) returns (r: Option<Conversation>)
      requires Valid()
      modifies this`conversations
      ensures Valid()
      ensures id !in old(conversations.rows) ==> r.None? && conversations == old(conversations)
      ensures id in old(conversations.rows) ==>
                r == Some(MergeConversation(old(conversations.rows[id]), u, now))
                && conversations == Put(old(conversations), id, r.value)
    {
      match Get(conversations, id)
      case None =>
        r := None;
      case Some(c) =>
        var updated := MergeConversation(c, u, now);
        conversations := Put(conversations, id, updated);
        r := Some(updated);
    }

    /** `addMessageToConversation`: nothing happens for an unknown id;
        otherwise the message goes at the end of that conversation's list,
        and every other conversation is untouched. */
    method AddMessageToConversation(id: int, m: Message, now: Timestamp) returns (r: Option<Conversation>)
      requires Valid()
      modifies this`conversations
      ensures Valid()
      ensures id !in old(conversations.rows) ==> r.None? && conversations == old(conversations)
      ensures id in old(conversations.rows) ==>
                var c := old(conversations.rows[id]);
                && r == Some(c.(messages := c.messages + [m], updatedAt := now))
                && conversations == Put(old(conversations), id, r.value)
      ensures forall k :: k != id && k in old(conversations.rows) ==>
                k in conversations.rows && conversations.rows[k] == old(conversations.rows[k])
    {
      match Get(conversations, id)
      case None =>
        r := None;
      case Some(c) =>
        var updated := c.(messages := c.messages + [m], updatedAt := now);
        conversations := Put(conversations, id, updated);
        r := Some(updated);
    }

    /** `createAnalytics`. */
    method CreateAnalytics(input: AnalyticsInput) returns (a: Analytics)
      requires Valid()
      modifies this`analytics
      ensures Valid()
      ensures a == Analytics(old(analytics.nextId), input.date, input.intentCounts, input.intentAccuracy,
                             input.activeConversations, input.completedConversations, input.avgResponseTime)
      ensures a.id !in old(analytics.rows) && analytics.nextId == old(analytics.nextId) + 1
      ensures analytics == Insert(old(analytics), a) && AnalyticsRecords() == old(AnalyticsRecords()) + [a]
    {
      a := Analytics(analytics.nextId, input.date, input.intentCounts, input.intentAccuracy,
                     input.activeConversations, input.completedConversations, input.avgResponseTime);
      analytics := Insert(analytics, a);
    }

    /** `updateAnalytics`. */
    method UpdateAnalytics(id: int, u: AnalyticsPatch) returns (r: Option<Analytics>)
      requires Valid()
      modifies this`analytics
      ensures Valid()
      ensures id !in old(analytics.rows) ==> r.None? && analytics == old(analytics)
      ensures id in old(analytics.rows) ==>
                r == Some(MergeAnalytics(old(analytics.rows[id]), u)) && analytics == Put(old(analytics), id, r.value)
    {
      match Get(analytics, id)
      case None =>
        r := None;
      case Some(a) =>
        var updated := MergeAnalytics(a, u);
        analytics := Put(analytics, id, updated);
        r := Some(updated);
    }
  }

  /** Deleting a product and then creating one never brings the deleted id
      back. */
  lemma DeletedIdNotReissued(t: Table<Product>, id: int, p: Product)
    requires Tables.Valid(t) && id in t.rows
    ensures id !in Insert(Delete(t, id), p).rows
  {
  }
}
