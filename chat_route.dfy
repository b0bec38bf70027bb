/** The `POST /api/chat` handler: validate the body, classify the message
    and extract its entities, generate the reply against the store, then
    record the exchange as two messages in a new or an existing
    conversation. */
module ChatRoute {
  import opened Collections
  import opened JsText
  import opened Schema
  import opened Tables
  import opened Storage
  import opened EntityExtractor
  import opened ResponseGenerator
  import IC = IntentClassifier

  /** One key of the JSON request body: missing, a string, or any other
      JSON value. */
  datatype Field = Absent | Str(s: string) | OtherValue

  datatype ChatBody = ChatBody(message: Field, conversationId: Field)

  /** The schema `{ message: string, conversationId?: string }`. */
  predicate WellShaped(body: ChatBody)
    ensures WellShaped(body) <==> body.message.Str? && (body.conversationId.Absent? || body.conversationId.Str?)
  {
    body.message.Str? && !body.conversationId.OtherValue?
  }

  /** `generateResponse(intent, entities, contextMessages)` as the handler
      calls it, over the given products and orders. */
  function Responder(cat: Catalog, fmt: DateFormatter, choice: Choice): (Intent, seq<EntityValue>, seq<Message>) -> string
  {
    (intent, entities, context) => GenerateResponse(intent, entities, context, cat, fmt, choice)
  }

  /** The JSON the handler answers with. */
  datatype ChatResponse =
    | ChatReply(message: Message, intent: Intent, entities: seq<EntityValue>, conversationId: int)
    | ServerError(status: int, error: string)

  const ErrorText := "Error processing request"

  /** The conversation `storage.getConversation(parseInt(conversationId))`
      finds; an absent or empty id (both falsy) is not looked up, and an id
      `parseInt` reads as NaN finds nothing. */
  function Existing(t: Table<Conversation>, conversationId: Field): (r: Option<Conversation>)
    ensures r.Some? <==> conversationId.Str? && conversationId.s != [] && ParseInt(conversationId.s).Some?
                          && ParseInt(conversationId.s).value in t.rows
    ensures r.Some? ==> r.value == t.rows[ParseInt(conversationId.s).value]
  {
    if conversationId.Str? && conversationId.s != [] then
      match ParseInt(conversationId.s)
      case Some(n) => Get(t, n)
      case None => None
    else None
  }

  /** A client that sends back the id it was given, as a decimal string,
      gets that conversation. */
  lemma ExistingByDecimalId(t: Table<Conversation>, k: int)
    requires k in t.rows
    ensures Existing(t, Str(IntToString(k))) == Some(t.rows[k])
  {
    ParseIntRoundTrip(k);
  }

  /** The history handed to the generator: `conversation?.messages || []`. */
  function History(c: Option<Conversation>): seq<Message>
  {
    if c.Some? then c.value.messages else []
  }

  function UserMessage(id: string, content: string, entities: seq<EntityValue>, intent: Intent, now: Timestamp): Message
  {
    Message(id, UserSender, content, now, Some(entities), Some(intent.name))
  }

  function BotMessage(id: string, reply: string, intent: Intent, now: Timestamp): Message
  {
    Message(id, BotSender, reply, now, None, Some(intent.name))
  }

  /** The new conversation `createConversation` is given. */
  function NewConversation(intent: Intent, user: Message, bot: Message): ConversationInput
  {
    ConversationInput(None, Some(intent.name), [user, bot], Some(true))
  }

  /** The conversations after the exchange is recorded, and the id of the
      conversation that holds it. */
  function Recorded(t: Table<Conversation>, existing: Option<Conversation>, intent: Intent,
                    user: Message, bot: Message, now: Timestamp): (Table<Conversation>, int)
    requires Tables.Valid(t)
    requires existing.Some? ==> existing.value.id in t.rows && t.rows[existing.value.id] == existing.value
  {
    if existing.Some? then
      var c := existing.value;
      (Put(t, c.id, c.(messages := c.messages + [user, bot], updatedAt := now)), c.id)
    else
      var input := NewConversation(intent, user, bot);
      (Insert(t, Conversation(t.nextId, input.userId, input.intent, input.messages, input.active, now, now)), t.nextId)
  }

  /** The recorded conversation is in the table, ends with the user message
      followed by the bot message, and holds nothing else new: an existing
      one keeps its earlier messages, a new one holds just the two. */
  lemma RecordedHolds(t: Table<Conversation>, existing: Option<Conversation>, intent: Intent,
                      user: Message, bot: Message, now: Timestamp)
    requires Tables.Valid(t)
    requires existing.Some? ==> existing.value.id in t.rows && t.rows[existing.value.id] == existing.value
    ensures var (r, id) := Recorded(t, existing, intent, user, bot, now);
            && id in r.rows
            && r.rows[id].messages == History(existing) + [user, bot]
            && r.rows[id].updatedAt == now
            && (existing.None? ==> id !in t.rows && r.rows[id].userId.None? && r.rows[id].active == Some(true)
                                   && r.rows[id].intent == Some(intent.name))
  {
    if existing.None? {
      assert [] + [user, bot] == [user, bot];
    }
  }

  /** Every other conversation is untouched, and no conversation is lost. */
  lemma RecordedKeepsOthers(t: Table<Conversation>, existing: Option<Conversation>, intent: Intent,
                            user: Message, bot: Message, now: Timestamp, k: int)
    requires Tables.Valid(t)
    requires existing.Some? ==> existing.value.id in t.rows && t.rows[existing.value.id] == existing.value
    requires k in t.rows
    ensures var (r, id) := Recorded(t, existing, intent, user, bot, now);
            k in r.rows && (k != id ==> r.rows[k] == t.rows[k])
  {
  }

  /** Stores the exchange: appends the user message and then the bot
      message to an existing conversation, or creates a new one holding
      the two. */
  method Record(store: MemStorage, existing: Option<Conversation>, intent: Intent, user: Message, bot: Message,
                now: Timestamp) returns (id: int)
    requires store.Valid()
    requires existing.Some? ==> existing.value.id in store.conversations.rows
                                && store.conversations.rows[existing.value.id] == existing.value
    modifies store`conversations
    ensures store.Valid()
    ensures (store.conversations, id) == Recorded(old(store.conversations), existing, intent, user, bot, now)
  {
    if existing.Some? {
      var c := existing.value;
      id := c.id;
      ghost var before := store.conversations;
      var _ := store.AddMessageToConversation(id, user, now);
      var _ := store.AddMessageToConversation(id, bot, now);
      assert c.messages + [user] + [bot] == c.messages + [user, bot];
      PutPut(before, id, c.(messages := c.messages + [user], updatedAt := now),
             c.(messages := c.messages + [user, bot], updatedAt := now));
    } else {
      var created := store.CreateConversation(NewConversation(intent, user, bot), now);
      id := created.id;
    }
  }

  /** `POST /chat`. A body of the wrong shape is answered with status 500
      and no change; otherwise the reply is generated from the message's
      intent and entities and the history of the conversation named by
      `conversationId`, the two messages are recorded, and the response
      carries the bot message, the intent, the formatted entities and the
      id of the conversation. The reply is `generateResponse` over the
      store's products and orders; `fmt` and `choice` stand for date
      rendering and the random greeting or farewell, `userId` and `botId`
      for the two `uuidv4()` values and `now` for the clock. */
  method Chat(store: MemStorage, classifier: IC.Classifier, body: ChatBody, fmt: DateFormatter, choice: Choice,
              userId: string, botId: string, now: Timestamp) returns (resp: ChatResponse)
    requires store.Valid()
    modifies store`conversations
    ensures store.Valid()
    ensures !WellShaped(body) ==> resp == ServerError(500, ErrorText) && store.conversations == old(store.conversations)
    ensures WellShaped(body) ==>
              var message := body.message.s;
              var intent := IC.ClassifyWith(classifier.patterns, message);
              var entities := FormatEntities(Extraction(message));
              var existing := Existing(old(store.conversations), body.conversationId);
              var user := UserMessage(userId, message, entities, intent, now);
              var generate := Responder(old(Catalog(store.Products(), store.Orders())), fmt, choice);
              var reply := generate(intent, entities, History(existing));
              var bot := BotMessage(botId, reply, intent, now);
              var (after, id) := Recorded(old(store.conversations), existing, intent, user, bot, now);
              && resp == ChatReply(bot, intent, entities, id)
              && store.conversations == after
  {
    if !(body.message.Str? && !body.conversationId.OtherValue?) {
      return ServerError(500, ErrorText);
    }
    var generate := Responder(Catalog(store.Products(), store.Orders()), fmt, choice);
    var message := body.message.s;
    var intent := classifier.Classify(message);
    var extracted := ExtractEntities(message);
    var entities := FormatEntities(extracted);
    var conversation := Existing(store.conversations, body.conversationId);
    var reply := generate(intent, entities, History(conversation));
    var user := UserMessage(userId, message, entities, intent, now);
    var bot := BotMessage(botId, reply, intent, now);
    var id := Record(store, conversation, intent, user, bot, now);
    resp := ChatReply(bot, intent, entities, id);
  }
}
