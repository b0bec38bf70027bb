/** `ResponseGenerator`: the reply text for a classified intent and its
    entities. Every handler reads the store through the `Catalog` view and
    formats a template; the random greeting or farewell is a `Choice`
    parameter and date rendering is a `DateFormatter` parameter. */
module ResponseGenerator {
  import opened Collections
  import opened JsText
  import opened Schema
  import Storage
  import IC = IntentClassifier

  /** The read-only part of the store the handlers query. */
  datatype Catalog = Catalog(products: seq<Product>, orders: seq<Order>)

  predicate StartsWith(s: string, t: string)
  {
    |t| <= |s| && s[..|t|] == t
  }

  /** `entities.find(e => e.entity === kind)`. */
  function FirstOf(entities: seq<EntityValue>, kind: string): (r: Option<EntityValue>)
    ensures r.None? <==> forall i :: 0 <= i < |entities| ==> entities[i].entity != kind
    ensures r.Some? ==> r.value.entity == kind
    ensures r.Some? ==> exists i :: 0 <= i < |entities| && entities[i] == r.value
                                    && forall j :: 0 <= j < i ==> entities[j].entity != kind
  {
    Find(entities, (e: EntityValue) => e.entity == kind)
  }

  // ----- Template texts -----

  /** The text of a template literal, from its pieces in order. */
  function Concat(parts: seq<string>): string
  {
    if parts == [] then "" else Concat(parts[..|parts| - 1]) + parts[|parts| - 1]
  }

  lemma {:induction false} ConcatSplit(parts: seq<string>, k: nat)
    requires k <= |parts|
    ensures Concat(parts) == Concat(parts[..k]) + Concat(parts[k..])
    decreases |parts|
  {
    if k == |parts| {
      assert parts[..k] == parts && parts[k..] == [];
    } else {
      var init := parts[..|parts| - 1];
      var last := parts[|parts| - 1];
      ConcatSplit(init, k);
      assert init[..k] == parts[..k];
      var tail := parts[k..];
      assert tail[..|tail| - 1] == init[k..] && tail[|tail| - 1] == last;
    }
  }

  lemma ConcatOne(x: string)
    ensures Concat([x]) == x
  {
    assert [x][..0] == [];
  }

  /** A run of consecutive pieces occurs in the text, and the pieces up to
      any point are a prefix of it. */
  lemma ConcatPart(parts: seq<string>, i: nat, j: nat)
    requires i <= j <= |parts|
    ensures StartsWith(Concat(parts), Concat(parts[..j]))
    ensures Includes(Concat(parts), Concat(parts[i..j]))
  {
    ConcatSplit(parts, j);
    ConcatSplit(parts[..j], i);
    assert parts[..j][..i] == parts[..i] && parts[..j][i..] == parts[i..j];
    IncludesPart(Concat(parts[..i]), Concat(parts[i..j]), Concat(parts[j..]));
    PrefixOfAppend(Concat(parts[..j]), Concat(parts[j..]), Concat(parts[..j]));
  }

  /** Each piece occurs in the text. */
  lemma ConcatHas(parts: seq<string>, i: nat)
    requires i < |parts|
    ensures Includes(Concat(parts), parts[i])
  {
    ConcatPart(parts, i, i + 1);
    assert parts[i..i + 1] == [parts[i]];
    ConcatOne(parts[i]);
  }

  /** Two adjacent pieces occur in the text together. */
  lemma ConcatPair(parts: seq<string>, i: nat)
    requires i + 1 < |parts|
    ensures Includes(Concat(parts), parts[i] + parts[i + 1])
  {
    ConcatPart(parts, i, i + 2);
    var pair := parts[i..i + 2];
    assert pair[..1] == [parts[i]] && pair[1] == parts[i + 1];
    ConcatOne(parts[i]);
  }

  /** A prefix of `a` is a prefix of `a + b`. */
  lemma PrefixOfAppend(a: string, b: string, t: string)
    requires StartsWith(a, t) || t == a
    ensures StartsWith(a + b, t)
  {
    assert (a + b)[..|t|] == a[..|t|];
  }

  /** A text found in `b` is found in `a + b`. */
  lemma IncludesSuffix(a: string, b: string, t: string)
    requires Includes(b, t)
    ensures Includes(a + b, t)
  {
    var i := IndexOf(b, t);
    assert (a + b)[|a| + i..|a| + i + |t|] == b[i..i + |t|];
    IncludesAt(a + b, t, |a| + i);
  }

  // ----- Fixed texts -----

  const Greetings: seq<string> := [
    "Hello! I'm your BusinessAI Assistant. "
      + "How can I help you today?",
    "Hi there! I'm ready to assist "
      + "with inventory management, customer "
      + "support, and sales. What do you "
      + "need?",
    "Welcome! How may I assist you "
      + "with your business needs today?"
  ]

  const Goodbyes: seq<string> := [
    "Thank you for using BusinessAI "
      + "Assistant. Have a great day!",
    "Goodbye! Feel free to return if "
      + "you need any more assistance.",
    "Thanks for chatting. I'm here "
      + "whenever you need help with your "
      + "business needs."
  ]

  const NoProductsText := "I couldn't find any products matching "
      + "your query. Could you provide "
      + "more details or check the spelling?"
  const NoRestockProductText := "I couldn't find the specific product "
      + "you're asking about. Could you "
      + "provide the product name or SKU?"
  const OrderPromptText := "To check an order status, please "
      + "provide your order number. For "
      + "example, 'What's the status of "
      + "order #38291?'"
  const NoInquiryProductText := "I couldn't find specific information "
      + "about that product. Could you "
      + "provide more details or ask about "
      + "a different product?"
  const NoDescriptionText := "No detailed description available."
  const ReturnsText := "Our return policy allows returns "
      + "within 30 days of purchase with "
      + "the original receipt. To initiate "
      + "a return or request a refund, "
      + "please provide your order number "
      + "and the reason for the return."
  const HelpText := "I can assist you with various business tasks. "
    + "Here are some things you can ask me:\n\n"
    + "- Check inventory for specific products\n"
    + "- Get information about product restocking\n"
    + "- Check the status of an order\n"
    + "- Get detailed product information\n"
    + "- Learn about our return and refund policies\n\n"
    + "How can I help you today?"
  const GeneralText := "I'm your BusinessAI Assistant, "
      + "designed to help with inventory "
      + "management, customer support, "
      + "and sales assistance. I can check "
      + "product availability, provide "
      + "order status updates, answer product "
      + "questions, and much more. What "
      + "business task can I help you with "
      + "today?"

  function HandleGreeting(choice: Choice): string
  {
    Greetings[choice]
  }

  function HandleGoodbye(choice: Choice): string
  {
    Goodbyes[choice]
  }

  // ----- Product listing -----

  /** `statusText` of one listed product. */
  function StatusText(p: Product): string
  {
    if p.status == Some("in_stock") then "In Stock: " + IntToString(p.quantity)
    else if p.status == Some("low_stock") then "Low Stock: " + IntToString(p.quantity)
    else "Out of Stock"
  }

  function StatusClass(p: Product): string
  {
    if p.status == Some("in_stock") then "text-green-600"
    else if p.status == Some("low_stock") then "text-amber-600"
    else "text-red-600"
  }

  /** The stock text shows the quantity exactly for the two stocked
      statuses; every other status, a missing one included, reads "Out of
      Stock". */
  lemma StatusTextCases(p: Product)
    ensures StatusText(p) == "Out of Stock" <==> p.status != Some("in_stock") && p.status != Some("low_stock")
    ensures p.status == Some("in_stock") ==> StartsWith(StatusText(p), "In Stock: ") && Includes(StatusText(p), IntToString(p.quantity))
    ensures p.status == Some("low_stock") ==> StartsWith(StatusText(p), "Low Stock: ") && Includes(StatusText(p), IntToString(p.quantity))
  {
    var q := IntToString(p.quantity);
    if p.status == Some("in_stock") {
      assert StatusText(p)[0] == 'I';
      IncludesPart("In Stock: ", q, "");
      assert "In Stock: " + q + "" == StatusText(p);
    } else if p.status == Some("low_stock") {
      assert StatusText(p)[0] == 'L';
      IncludesPart("Low Stock: ", q, "");
      assert "Low Stock: " + q + "" == StatusText(p);
    }
  }

  // The fixed pieces of a product card, between the name, the status
  // class, the status text and the sku.
  const CardOpen := "<div class=\"bg-white p-2 rounded border border-gray-200\">\n"
      + "        <div class=\"flex justify-between\">\n"
      + "          <span class=\"font-medium text-sm\">"
  const CardAfterName := "</span>\n          <span class=\""
  const CardAfterClass := " text-sm\">"
  const CardAfterStatus := "</span>\n        </div>\n"
      + "        <p class=\"text-xs text-gray-500\">SKU: "
  const CardClose := "</p>\n      </div>"

  /** The card of one product. */
  function ProductBlock(p: Product): string
  {
    Concat([CardOpen, p.name, CardAfterName, StatusClass(p), CardAfterClass, StatusText(p), CardAfterStatus, p.sku, CardClose])
  }

  /** `Array.prototype.join`. */
  function Join(parts: seq<string>, sep: string): string
    decreases |parts|
  {
    if parts == [] then "" else if |parts| == 1 then parts[0] else parts[0] + sep + Join(parts[1..], sep)
  }

  lemma {:induction false} JoinConcat(a: seq<string>, b: seq<string>, sep: string)
    requires a != [] && b != []
    ensures Join(a + b, sep) == Join(a, sep) + sep + Join(b, sep)
    decreases |a|
  {
    if |a| == 1 {
      assert (a + b)[1..] == b;
    } else {
      assert (a + b)[1..] == a[1..] + b;
      JoinConcat(a[1..], b, sep);
    }
  }

  function Blocks(ps: seq<Product>): (r: seq<string>)
    ensures |r| == |ps| && forall i :: 0 <= i < |ps| ==> r[i] == ProductBlock(ps[i])
  {
    seq(|ps|, i requires 0 <= i < |ps| => ProductBlock(ps[i]))
  }

  /** `formatProductsHtml`: nothing for no products, the card alone for
      one, and a text that holds every product's card. */
  function FormatProductsHtml(ps: seq<Product>): (r: string)
    ensures ps == [] ==> r == ""
    ensures |ps| == 1 ==> r == ProductBlock(ps[0])
    ensures forall i :: 0 <= i < |ps| ==> Includes(r, ProductBlock(ps[i]))
  {
    JoinHasEvery(Blocks(ps), "\n");
    Join(Blocks(ps), "\n")
  }

  /** One card per product, in list order, separated by newlines: the
      listing of a concatenation is the two listings joined by '\n'. */
  lemma FormatProductsHtmlConcat(a: seq<Product>, b: seq<Product>)
    ensures a != [] && b != [] ==> FormatProductsHtml(a + b) == FormatProductsHtml(a) + "\n" + FormatProductsHtml(b)
  {
    assert Blocks(a + b) == Blocks(a) + Blocks(b);
    if a != [] && b != [] {
      JoinConcat(Blocks(a), Blocks(b), "\n");
    }
  }

  /** Every part occurs in the joined text. */
  lemma {:induction false} JoinHasParts(parts: seq<string>, sep: string, i: nat)
    requires i < |parts|
    ensures Includes(Join(parts, sep), parts[i])
    decreases |parts|
  {
    var rest := Join(parts[1..], sep);
    if |parts| == 1 {
      IncludesPart("", parts[0], "");
      assert "" + parts[0] + "" == Join(parts, sep);
    } else if i == 0 {
      IncludesPart("", parts[0], sep + rest);
      assert "" + parts[0] + (sep + rest) == Join(parts, sep);
    } else {
      JoinHasParts(parts[1..], sep, i - 1);
      IncludesSuffix(parts[0] + sep, rest, parts[i]);
    }
  }

  lemma JoinHasEvery(parts: seq<string>, sep: string)
    ensures forall i :: 0 <= i < |parts| ==> Includes(Join(parts, sep), parts[i])
  {
    forall i | 0 <= i < |parts| ensures Includes(Join(parts, sep), parts[i]) {
      JoinHasParts(parts, sep, i);
    }
  }

  // ----- Inventory check -----

  /** The products an inventory question lists: by the first sku entity
      (uppercased, exact match), else by searching for the first product
      entity, else by the first category entity, else every product. */
  function InventoryProducts(cat: Catalog, entities: seq<EntityValue>): (r: seq<Product>)
    ensures forall p :: p in r ==> p in cat.products
    ensures FirstOf(entities, "sku").Some? ==>
      var sku := Upper(FirstOf(entities, "sku").value.value);
      && |r| <= 1
      && (r == [] <==> forall i :: 0 <= i < |cat.products| ==> cat.products[i].sku != sku)
      && (r != [] ==> r[0].sku == sku)
    ensures FirstOf(entities, "sku").None? && FirstOf(entities, "product").Some? ==>
      forall p :: p in r <==> p in cat.products && Storage.MatchesQuery(p, FirstOf(entities, "product").value.value)
    ensures FirstOf(entities, "sku").None? && FirstOf(entities, "product").None? && FirstOf(entities, "category").Some? ==>
      forall p :: p in r <==> p in cat.products && p.category == Some(FirstOf(entities, "category").value.value)
    ensures FirstOf(entities, "sku").None? && FirstOf(entities, "product").None? && FirstOf(entities, "category").None? ==>
      r == cat.products
  {
    var skuEntity := FirstOf(entities, "sku");
    var productEntity := FirstOf(entities, "product");
    var categoryEntity := FirstOf(entities, "category");
    if skuEntity.Some? then
      match Storage.ProductBySku(cat.products, Upper(skuEntity.value.value))
      case Some(p) => [p]
      case None => []
    else if productEntity.Some? then Storage.SearchProducts(cat.products, productEntity.value.value)
    else if categoryEntity.Some? then Storage.ProductsByCategory(cat.products, categoryEntity.value.value)
    else cat.products
  }

  function ProductNoun(n: nat): string
  {
    if n == 1 then "product" else "products"
  }

  const FoundOpen := "I found "
  const FoundListOpen := " in our inventory:\n    \n"
      + "    <div class=\"mt-3 space-y-2\">\n      "
  const FoundListClose := "\n    </div>\n    \n"
      + "    Would you like to place an order or get more information "
      + "about any of these products?"

  /** The pieces of the answer listing the products found. */
  function FoundParts(ps: seq<Product>): seq<string>
  {
    [FoundOpen, NatToString(|ps|), " ", ProductNoun(|ps|), FoundListOpen, FormatProductsHtml(ps), FoundListClose]
  }

  /** `handleInventoryCheck`: an empty lookup gives the fixed apology; a
      non-empty one opens with its count and the right plural and holds the
      listing of exactly the products found. */
  function HandleInventoryCheck(cat: Catalog, entities: seq<EntityValue>): (r: string)
    ensures var ps := InventoryProducts(cat, entities);
      && (ps == [] ==> r == NoProductsText)
      && (ps != [] ==> StartsWith(r, Concat([FoundOpen, NatToString(|ps|), " ", ProductNoun(|ps|), FoundListOpen]))
                       && (ProductNoun(|ps|) == "products" <==> |ps| != 1)
                       && Includes(r, FormatProductsHtml(ps)))
  {
    var ps := InventoryProducts(cat, entities);
    if |ps| == 0 then NoProductsText
    else
      var parts := FoundParts(ps);
      ConcatPart(parts, 0, 5);
      assert parts[..5] == [FoundOpen, NatToString(|ps|), " ", ProductNoun(|ps|), FoundListOpen];
      ConcatHas(parts, 5);
      Concat(parts)
  }

  // ----- Questions about one product -----

  /** The product a restock or product question is about: the first sku
      entity, uppercased, looked up exactly, else the first search hit for
      the first product entity, else none. */
  function SingleProduct(cat: Catalog, entities: seq<EntityValue>): (r: Option<Product>)
    ensures r.Some? ==> r.value in cat.products
    ensures FirstOf(entities, "sku").Some? ==>
      var sku := Upper(FirstOf(entities, "sku").value.value);
      && (r.None? <==> forall i :: 0 <= i < |cat.products| ==> cat.products[i].sku != sku)
      && (r.Some? ==> r.value.sku == sku)
    ensures FirstOf(entities, "sku").None? && FirstOf(entities, "product").Some? ==>
      var q := FirstOf(entities, "product").value.value;
      && (r.None? <==> forall p :: p in cat.products ==> !Storage.MatchesQuery(p, q))
      && (r.Some? ==> Storage.MatchesQuery(r.value, q))
      && (r.Some? ==> exists i :: 0 <= i < |cat.products| && cat.products[i] == r.value
                                  && forall j :: 0 <= j < i ==> !Storage.MatchesQuery(cat.products[j], q))
    ensures FirstOf(entities, "sku").None? && FirstOf(entities, "product").None? ==> r.None?
  {
    var skuEntity := FirstOf(entities, "sku");
    var productEntity := FirstOf(entities, "product");
    if skuEntity.Some? then Storage.ProductBySku(cat.products, Upper(skuEntity.value.value))
    else if productEntity.Some? then
      var ps := Storage.SearchProducts(cat.products, productEntity.value.value);
      if |ps| > 0 then
        assert ps[0] in ps;
        FilterHead(cat.products, (p: Product) => Storage.MatchesQuery(p, productEntity.value.value));
        Some(ps[0])
      else None
    else None
  }

  const RestockNoneTail := " units available. No restock is currently scheduled."
  const RestockCheckedOpen := "I checked our system and the "
  const RestockScheduled := ") is scheduled to be back in stock by "
  /** Announces the 15-unit shipment. */
  const RestockShipment := ". We'll be receiving a shipment of 15 units.\n      \n"
      + "      Would you like me to notify you when they're available?"
  const RestockUnknownTail := ") is currently out of stock. Unfortunately, "
      + "we don't have a confirmed restock "
      + "date yet. Would you like me to "
      + "notify you when we have more information?"

  /** The pieces of a restock answer about a known product. */
  function RestockParts(p: Product, fmt: DateFormatter): seq<string>
  {
    if p.status != Some("out_of_stock") then
      [p.name, " (", p.sku, ") is currently ", if p.status == Some("in_stock") then "in stock" else "low in stock",
       " with ", IntToString(p.quantity), RestockNoneTail]
    else if p.nextRestock.Some? then
      [RestockCheckedOpen, p.name, " (", p.sku, RestockScheduled, fmt.weekdayMonthDay(p.nextRestock.value), RestockShipment]
    else
      [p.name, " (", p.sku, RestockUnknownTail]
  }

  /** `handleInventoryRestock`, with its four answers: not found; stocked
      (any status but out_of_stock, a missing one reading "low in stock")
      with the quantity and no schedule; out of stock with a date, naming it
      and the 15-unit shipment; out of stock without one. */
  function HandleInventoryRestock(cat: Catalog, entities: seq<EntityValue>, fmt: DateFormatter): (r: string)
    ensures match SingleProduct(cat, entities)
      case None => r == NoRestockProductText
      case Some(p) => RestockShape(p, fmt, r)
  {
    match SingleProduct(cat, entities)
    case None => NoRestockProductText
    case Some(p) =>
      RestockPartsShape(p, fmt);
      Concat(RestockParts(p, fmt))
  }

  lemma RestockPartsShape(p: Product, fmt: DateFormatter)
    ensures RestockShape(p, fmt, Concat(RestockParts(p, fmt)))
  {
    if p.status != Some("out_of_stock") {
      StockedRestockShape(p, fmt);
    } else if p.nextRestock.Some? {
      ScheduledRestockShape(p, fmt);
    } else {
      var parts := RestockParts(p, fmt);
      ConcatPart(parts, 0, 1);
      assert parts[..1] == [p.name];
      ConcatOne(p.name);
      ConcatHas(parts, 3);
    }
  }

  /** What the restock answer `r` about the known product `p` shows. */
  predicate RestockShape(p: Product, fmt: DateFormatter, r: string)
  {
    && (p.status != Some("out_of_stock") ==>
          && StartsWith(r, Concat([p.name, " (", p.sku, ") is currently ",
                                   if p.status == Some("in_stock") then "in stock" else "low in stock"]))
          && Includes(r, IntToString(p.quantity) + RestockNoneTail))
    && (p.status == Some("out_of_stock") && p.nextRestock.Some? ==>
          && StartsWith(r, Concat([RestockCheckedOpen, p.name]))
          && Includes(r, fmt.weekdayMonthDay(p.nextRestock.value))
          && Includes(r, RestockShipment))
    && (p.status == Some("out_of_stock") && p.nextRestock.None? ==>
          StartsWith(r, p.name) && Includes(r, RestockUnknownTail))
  }

  lemma StockedRestockShape(p: Product, fmt: DateFormatter)
    requires p.status != Some("out_of_stock")
    ensures RestockShape(p, fmt, Concat(RestockParts(p, fmt)))
  {
    var parts := RestockParts(p, fmt);
    ConcatPart(parts, 0, 5);
    assert parts[..5] == [p.name, " (", p.sku, ") is currently ", parts[4]];
    ConcatPair(parts, 6);
  }

  lemma ScheduledRestockShape(p: Product, fmt: DateFormatter)
    requires p.status == Some("out_of_stock") && p.nextRestock.Some?
    ensures RestockShape(p, fmt, Concat(RestockParts(p, fmt)))
  {
    var parts := RestockParts(p, fmt);
    ConcatPart(parts, 0, 2);
    assert parts[..2] == [RestockCheckedOpen, p.name];
    ConcatHas(parts, 5);
    ConcatHas(parts, 6);
  }

  // ----- Order status -----

  /** `statusMessages[order.status] || 'is being processed'`. */
  function StatusMessage(status: Option<string>): (r: string)
    ensures r == "is being processed" <==>
      status !in {Some("pending"), Some("processing"), Some("completed"), Some("shipped"), Some("cancelled")}
  {
    if status == Some("pending") then "has been received and is pending processing"
    else if status == Some("processing") then "is currently being processed"
    else if status == Some("completed") then "has been completed"
    else if status == Some("shipped") then "has been shipped and is on its way to you"
    else if status == Some("cancelled") then "has been cancelled"
    else "is being processed"
  }

  const NoOrderOpen := "I couldn't find an order with number "
  const NoOrderClose := ". Please check the number and try again."
  const OrderPlacedOn := ". This order was placed on "
  const OrderTotalOpen := " with a total of "
  const OrderClose := ".\n    \n"
      + "    Can I help you with anything else regarding this order?"

  /** The pieces of the answer about a known order. */
  function OrderParts(o: Order, fmt: DateFormatter): seq<string>
  {
    ["Order #", o.orderNumber, " ", StatusMessage(o.status), OrderPlacedOn, fmt.localeDate(o.createdAt),
     OrderTotalOpen, "$", o.total, OrderClose]
  }

  /** `handleOrderStatus`: without an order number the answer is the
      fixed prompt; an unknown number is echoed after '#'; a known order's
      answer opens with its number and the phrase for its status and shows
      its date and total. */
  function HandleOrderStatus(cat: Catalog, entities: seq<EntityValue>, fmt: DateFormatter): (r: string)
    ensures match FirstOf(entities, "order_number")
      case None => r == OrderPromptText
      case Some(e) =>
        match Storage.OrderByNumber(cat.orders, e.value)
        case None =>
          && Includes(r, "#" + e.value)
          && forall i :: 0 <= i < |cat.orders| ==> cat.orders[i].orderNumber != e.value
        case Some(o) =>
          && o in cat.orders && o.orderNumber == e.value
          && StartsWith(r, Concat(["Order #", e.value, " ", StatusMessage(o.status)]))
          && Includes(r, fmt.localeDate(o.createdAt))
          && Includes(r, "$" + o.total)
  {
    match FirstOf(entities, "order_number")
    case None => OrderPromptText
    case Some(e) =>
      match Storage.OrderByNumber(cat.orders, e.value)
      case None =>
        ConcatPair([NoOrderOpen, "#", e.value, NoOrderClose], 1);
        Concat([NoOrderOpen, "#", e.value, NoOrderClose])
      case Some(o) =>
        OrderShape(o, fmt);
        Concat(OrderParts(o, fmt))
  }

  lemma OrderShape(o: Order, fmt: DateFormatter)
    ensures var r := Concat(OrderParts(o, fmt));
      && StartsWith(r, Concat(["Order #", o.orderNumber, " ", StatusMessage(o.status)]))
      && Includes(r, fmt.localeDate(o.createdAt))
      && Includes(r, "$" + o.total)
  {
    var parts := OrderParts(o, fmt);
    ConcatPart(parts, 0, 4);
    assert parts[..4] == ["Order #", o.orderNumber, " ", StatusMessage(o.status)];
    ConcatHas(parts, 5);
    ConcatPair(parts, 7);
  }

  // ----- Product inquiry -----

  /** `product.description || 'No detailed description available.'`: an
      absent or empty description is replaced. */
  function DescriptionText(p: Product): (r: string)
    ensures p.description.Some? && p.description.value != "" ==> r == p.description.value
    ensures p.description.None? || p.description == Some("") ==> r == NoDescriptionText
  {
    if p.description.Some? && p.description.value != "" then p.description.value else NoDescriptionText
  }

  function Availability(p: Product): string
  {
    if p.status == Some("in_stock") then "In stock (" + IntToString(p.quantity) + " units available)"
    else if p.status == Some("low_stock") then "Low stock (" + IntToString(p.quantity) + " units available)"
    else "Out of stock"
  }

  /** Availability is three-way, with the quantity for the two stocked
      statuses. */
  lemma AvailabilityCases(p: Product)
    ensures Availability(p) == "Out of stock" <==> p.status != Some("in_stock") && p.status != Some("low_stock")
    ensures p.status == Some("in_stock") ==> StartsWith(Availability(p), "In stock (") && Includes(Availability(p), IntToString(p.quantity))
    ensures p.status == Some("low_stock") ==> StartsWith(Availability(p), "Low stock (") && Includes(Availability(p), IntToString(p.quantity))
  {
    var q := IntToString(p.quantity);
    if p.status == Some("in_stock") {
      assert Availability(p)[0] == 'I';
      IncludesPart("In stock (", q, " units available)");
    } else if p.status == Some("low_stock") {
      assert Availability(p)[0] == 'L';
      IncludesPart("Low stock (", q, " units available)");
    }
  }

  /** The expected-restock line, present only for an out-of-stock product
      with a restock date. */
  function RestockLine(p: Product, fmt: DateFormatter): (r: string)
    ensures r != "" <==> p.status == Some("out_of_stock") && p.nextRestock.Some?
  {
    if p.status == Some("out_of_stock") && p.nextRestock.Some? then
      "Expected restock: " + fmt.localeDate(p.nextRestock.value)
    else ""
  }

  const InquiryOpen := "Here's information about "
  const InquiryClose := "\n    \n"
      + "    Would you like to know more or place an order for this product?"

  /** The pieces of the answer about a known product. */
  function InquiryParts(p: Product, fmt: DateFormatter): seq<string>
  {
    [InquiryOpen, p.name, " (", p.sku, "):\n    \n    ", DescriptionText(p), "\n    \n    Price: $", p.price,
     "\n    Availability: ", Availability(p), "\n    ", RestockLine(p, fmt), InquiryClose]
  }

  /** `handleProductInquiry`: an unknown product gives the fixed apology;
      a known one's answer names it and holds its description (or the
      placeholder), its price, its availability and, when out of stock with
      a date, the restock line. */
  function HandleProductInquiry(cat: Catalog, entities: seq<EntityValue>, fmt: DateFormatter): (r: string)
    ensures match SingleProduct(cat, entities)
      case None => r == NoInquiryProductText
      case Some(p) =>
        && StartsWith(r, Concat([InquiryOpen, p.name, " (", p.sku]))
        && (p.description.Some? && p.description.value != "" ==> Includes(r, p.description.value))
        && (p.description.None? || p.description == Some("") ==> Includes(r, NoDescriptionText))
        && Includes(r, "\n    \n    Price: $" + p.price)
        && Includes(r, "\n    Availability: " + Availability(p))
        && Includes(r, RestockLine(p, fmt))
  {
    match SingleProduct(cat, entities)
    case None => NoInquiryProductText
    case Some(p) =>
      InquiryShape(p, fmt);
      Concat(InquiryParts(p, fmt))
  }

  lemma InquiryShape(p: Product, fmt: DateFormatter)
    ensures var r := Concat(InquiryParts(p, fmt));
      && StartsWith(r, Concat([InquiryOpen, p.name, " (", p.sku]))
      && Includes(r, DescriptionText(p))
      && Includes(r, "\n    \n    Price: $" + p.price)
      && Includes(r, "\n    Availability: " + Availability(p))
      && Includes(r, RestockLine(p, fmt))
  {
    var parts := InquiryParts(p, fmt);
    ConcatPart(parts, 0, 4);
    assert parts[..4] == [InquiryOpen, p.name, " (", p.sku];
    ConcatHas(parts, 5);
    ConcatPair(parts, 6);
    ConcatPair(parts, 8);
    ConcatHas(parts, 11);
  }

  // ----- Dispatch -----

  /** The intent names with their own handler. */
  const HandledIntents: seq<string> := [IC.Greeting, IC.InventoryCheck, IC.InventoryRestock, IC.OrderStatus,
                                        IC.ProductInquiry, IC.ReturnsRefunds, IC.Help, IC.Goodbye]

  /** The `switch (intent.name)` cases. */
  datatype Handler = GreetingHandler | InventoryCheckHandler | InventoryRestockHandler | OrderStatusHandler
                   | ProductInquiryHandler | ReturnsRefundsHandler | HelpHandler | GoodbyeHandler | GeneralHandler

  /** The case an intent name selects; every name without a case of its
      own, `order_placement` and `general_inquiry` among them, selects the
      general answer. */
  function HandlerFor(name: string): Handler
  {
    if name == IC.Greeting then GreetingHandler
    else if name == IC.InventoryCheck then InventoryCheckHandler
    else if name == IC.InventoryRestock then InventoryRestockHandler
    else if name == IC.OrderStatus then OrderStatusHandler
    else if name == IC.ProductInquiry then ProductInquiryHandler
    else if name == IC.ReturnsRefunds then ReturnsRefundsHandler
    else if name == IC.Help then HelpHandler
    else if name == IC.Goodbye then GoodbyeHandler
    else GeneralHandler
  }

  /** Each of the eight handled names selects its own case, and a name
      selects the general answer exactly when it is not one of them;
      `order_placement` and `general_inquiry` are two such names. */
  lemma HandlerForCases(name: string)
    ensures HandlerFor(name) == GeneralHandler <==> name !in HandledIntents
    ensures HandlerFor(IC.Greeting) == GreetingHandler && HandlerFor(IC.InventoryCheck) == InventoryCheckHandler
    ensures HandlerFor(IC.InventoryRestock) == InventoryRestockHandler && HandlerFor(IC.OrderStatus) == OrderStatusHandler
    ensures HandlerFor(IC.ProductInquiry) == ProductInquiryHandler && HandlerFor(IC.ReturnsRefunds) == ReturnsRefundsHandler
    ensures HandlerFor(IC.Help) == HelpHandler && HandlerFor(IC.Goodbye) == GoodbyeHandler
    ensures HandlerFor(IC.OrderPlacement) == GeneralHandler && HandlerFor(IC.GeneralInquiry) == GeneralHandler
  {
  }

  /** `generateResponse`. Each case answers with its own handler: a
      greeting or a goodbye from its three texts, the fixed texts for
      returns and help and for the general answer, and the catalog handlers
      for the rest. The context messages are accepted and not read. */
  function GenerateResponse(intent: Intent, entities: seq<EntityValue>, context: seq<Message>,
                            cat: Catalog, fmt: DateFormatter, choice: Choice): (r: string)
    ensures var h := HandlerFor(intent.name);
      && (h == GreetingHandler ==> r in Greetings)
      && (h == GoodbyeHandler ==> r in Goodbyes)
      && (h == ReturnsRefundsHandler ==> r == ReturnsText)
      && (h == HelpHandler ==> r == HelpText)
      && (h == GeneralHandler ==> r == GeneralText)
      && (h == InventoryCheckHandler ==> r == HandleInventoryCheck(cat, entities))
      && (h == InventoryRestockHandler ==> r == HandleInventoryRestock(cat, entities, fmt))
      && (h == OrderStatusHandler ==> r == HandleOrderStatus(cat, entities, fmt))
      && (h == ProductInquiryHandler ==> r == HandleProductInquiry(cat, entities, fmt))
  {
    match HandlerFor(intent.name)
    case GreetingHandler => HandleGreeting(choice)
    case InventoryCheckHandler => HandleInventoryCheck(cat, entities)
    case InventoryRestockHandler => HandleInventoryRestock(cat, entities, fmt)
    case OrderStatusHandler => HandleOrderStatus(cat, entities, fmt)
    case ProductInquiryHandler => HandleProductInquiry(cat, entities, fmt)
    case ReturnsRefundsHandler => ReturnsText
    case HelpHandler => HelpText
    case GoodbyeHandler => HandleGoodbye(choice)
    case GeneralHandler => GeneralText
  }
}
