/** The records of the application's schema (users, products, orders,
    conversations with their chat messages, analytics) and the value types of
    the chat pipeline (intents and entities). Timestamps are milliseconds
    since the epoch; numeric database columns such as prices and totals are
    the decimal strings they are stored as. A nullable column is an
    `Option`. */
module Schema {
  import opened Collections

  type Timestamp = int

  datatype User = User(
    id: int,
    username: string,
    password: string,
    fullName: Option<string>,
    role: Option<string>,
    createdAt: Timestamp)

  datatype UserInput = UserInput(
    username: string,
    password: string,
    fullName: Option<string>,
    role: Option<string>)

  /** `status` is "in_stock", "low_stock" or "out_of_stock" when the
      application sets it; the column is nullable. */
  datatype Product = Product(
    id: int,
    name: string,
    sku: string,
    description: Option<string>,
    price: string,
    quantity: int,
    status: Option<string>,
    category: Option<string>,
    reorderPoint: Option<int>,
    nextRestock: Option<Timestamp>,
    imageUrl: Option<string>,
    createdAt: Timestamp,
    updatedAt: Timestamp)

  datatype ProductInput = ProductInput(
    name: string,
    sku: string,
    description: Option<string>,
    price: string,
    quantity: int,
    status: Option<string>,
    category: Option<string>,
    reorderPoint: Option<int>,
    nextRestock: Option<Timestamp>,
    imageUrl: Option<string>)

  /** A `Partial<Product>`: `Some` for each key present in the update. */
  datatype ProductPatch = ProductPatch(
    id: Option<int>,
    name: Option<string>,
    sku: Option<string>,
    description: Option<Option<string>>,
    price: Option<string>,
    quantity: Option<int>,
    status: Option<Option<string>>,
    category: Option<Option<string>>,
    reorderPoint: Option<Option<int>>,
    nextRestock: Option<Option<Timestamp>>,
    imageUrl: Option<Option<string>>,
    createdAt: Option<Timestamp>)

  const NoProductChanges := ProductPatch(None, None, None, None, None, None, None, None, None, None, None, None)

  /** One element of an order's `items` JSON array; absent keys are `None`. */
  datatype OrderItem = OrderItem(productId: Option<int>, quantity: Option<int>, price: Option<string>)

  datatype Order = Order(
    id: int,
    orderNumber: string,
    status: Option<string>,
    total: string,
    customerName: Option<string>,
    customerEmail: Option<string>,
    items: seq<OrderItem>,
    createdAt: Timestamp,
    updatedAt: Timestamp)

  datatype OrderInput = OrderInput(
    orderNumber: string,
    status: Option<string>,
    total: string,
    customerName: Option<string>,
    customerEmail: Option<string>,
    items: seq<OrderItem>)

  /** A `Partial<Order>`. */
  datatype OrderPatch = OrderPatch(
    id: Option<int>,
    orderNumber: Option<string>,
    status: Option<Option<string>>,
    total: Option<string>,
    customerName: Option<Option<string>>,
    customerEmail: Option<Option<string>>,
    items: Option<seq<OrderItem>>,
    createdAt: Option<Timestamp>)

  datatype Sender = UserSender | BotSender

  /** What `formatEntities` keeps of an entity, as carried in messages and
      responses. */
  datatype EntityValue = EntityValue(entity: string, value: string)

  datatype Message = Message(
    id: string,
    sender: Sender,
    content: string,
    timestamp: Timestamp,
    entities: Option<seq<EntityValue>>,
    intent: Option<string>)

  datatype Conversation = Conversation(
    id: int,
    userId: Option<int>,
    intent: Option<string>,
    messages: seq<Message>,
    active: Option<bool>,
    createdAt: Timestamp,
    updatedAt: Timestamp)

  datatype ConversationInput = ConversationInput(
    userId: Option<int>,
    intent: Option<string>,
    messages: seq<Message>,
    active: Option<bool>)

  /** A `Partial<Conversation>` without the `id` key. */
  datatype ConversationPatch = ConversationPatch(
    userId: Option<Option<int>>,
    intent: Option<Option<string>>,
    messages: Option<seq<Message>>,
    active: Option<Option<bool>>,
    createdAt: Option<Timestamp>)

  /** `intentCounts` is the JSON object as its key/count pairs; the numeric
      columns are kept as their decimal strings. */
  datatype Analytics = Analytics(
    id: int,
    date: Timestamp,
    intentCounts: seq<(string, int)>,
    intentAccuracy: Option<string>,
    activeConversations: Option<int>,
    completedConversations: Option<int>,
    avgResponseTime: Option<string>)

  datatype AnalyticsInput = AnalyticsInput(
    date: Timestamp,
    intentCounts: seq<(string, int)>,
    intentAccuracy: Option<string>,
    activeConversations: Option<int>,
    completedConversations: Option<int>,
    avgResponseTime: Option<string>)

  /** A `Partial<Analytics>`. */
  datatype AnalyticsPatch = AnalyticsPatch(
    id: Option<int>,
    date: Option<Timestamp>,
    intentCounts: Option<seq<(string, int)>>,
    intentAccuracy: Option<Option<string>>,
    activeConversations: Option<Option<int>>,
    completedConversations: Option<Option<int>>,
    avgResponseTime: Option<Option<string>>)

  /** A classified intent; `confidence` is exact rational arithmetic. */
  datatype Intent = Intent(name: string, confidence: real)

  datatype EntityType = ProductEntity | QuantityEntity | SkuEntity | DateEntity
                      | OrderNumberEntity | CustomerNameEntity | CategoryEntity
  {
    /** The type's name on the wire. */
    function Name(): string
    {
      match this
      case ProductEntity => "product"
      case QuantityEntity => "quantity"
      case SkuEntity => "sku"
      case DateEntity => "date"
      case OrderNumberEntity => "order_number"
      case CustomerNameEntity => "customer_name"
      case CategoryEntity => "category"
    }
  }

  /** An extracted entity with the offsets of its match. */
  datatype Entity = Entity(entity: EntityType, value: string, start: int, end: int)

  /** The two date renderings the reply templates use, both locale and
      time-zone dependent: `Intl.DateTimeFormat('en-US', {weekday: 'long',
      month: 'short', day: 'numeric'}).format` and `toLocaleDateString`. */
  datatype DateFormatter = DateFormatter(weekdayMonthDay: Timestamp -> string, localeDate: Timestamp -> string)

  /** `Math.floor(Math.random() * 3)`, the index drawn for a greeting or a
      farewell. */
  type Choice = i: nat | i < 3
}
