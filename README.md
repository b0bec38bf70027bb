# VirtualAssistantAI: the chat pipeline and its in-memory store

This project models the deterministic core of a small business-assistant
server and two of its client helpers.

- **Intent classifier.** A message is lowercased. Each of ten intents scores
  the share of its trigger phrases that occur in it. The strictly best intent
  wins, the first one in table order on a tie. A best score below 0.1 falls
  back to `general_inquiry`. The confidence is `min(0.5 + score, 1)`.
- **Entity extractor.** It finds vocabulary terms at their first occurrence
  and runs four regular expressions: SKU, quantity with a unit, bare number
  and order number. Each expression is written as a scanner over the
  message. Entities come out in stage order and can be formatted down to
  `{entity, value}`.
- **Response generator.** It dispatches on the intent name. Each handler
  formats a reply from read-only lookups in the product and order tables.
- **`MemStorage`.** One id-keyed table per entity. Each table is a map plus
  the key iteration order, with an id counter that only grows. The store
  supports create, merge-update, delete, finds and filters, and appending
  messages to a conversation.
- **Inventory and order services.** Stock updates recompute a product's
  status. Creating an order takes the ordered quantities out of stock. There
  are also count summaries.
- **`POST /api/chat`.** Validate the body, classify, extract, generate the
  reply, then record the user and bot messages. They are appended to the
  named conversation, or put into a new one.
- **Client helpers.**
  - `client/src/lib/nlp.ts`: label lookups, the confidence threshold,
    splitting text from HTML, and grouping entities by type.
  - `client/src/components/RecentOrders.tsx`: relative time in whole
    minutes, hours or days, and status colour classes.

## Design

Each source file has its own module:

| module | file |
|---|---|
| `IntentClassifier` | `intent_classifier.dfy` |
| `EntityPatterns`, `EntityShapes`, `EntityExtractor` | `entity_patterns.dfy`, `entity_shapes.dfy`, `entity_extractor.dfy` |
| `ResponseGenerator` | `response_generator.dfy` |
| `Tables`, `Storage` | `tables.dfy`, `storage.dfy` |
| `InventoryService` | `inventory_service.dfy` |
| `OrderService` | `order_service.dfy` |
| `ChatRoute` | `chat_route.dfy` |
| `ClientNlp` | `client_nlp.dfy` |
| `RecentOrders` | `recent_orders.dfy` |

`Schema` holds the records of `shared/schema.ts`. `JsText` and `Collections` hold the JavaScript
string and array operations the code relies on: `toLowerCase`, `indexOf`, `includes`, `trim`,
`parseInt`, `filter`, `find` and `sort`.

State that the source changes in place is imperative Dafny:

- **`MemStorage`** is a class. Its table fields are reassigned by methods with
  `modifies` clauses. Every method is specified against the `Tables`
  functions `Insert`, `Put` and `Delete`.
- **The `for` loop of `classify`** and **the `forEach` / `while (regex.exec)`
  loops of `extractEntities`** are methods with loop invariants. Each one is
  proved equal to a specification function: `ClassifyWith`, `TermEntities`
  or `Matches`.
- **The `forEach` of `parseEntities`** is a method in the same way, proved
  equal to `Group`.
- **The item loop of `createOrder`** is a method the same way, proved equal
  to `ApplyItems`.

Pure code is written as functions, with lemmas about them.

Several inputs become parameters:

- the random greeting or farewell choice;
- date rendering (`DateFormatter`);
- the two `uuidv4()` ids;
- the clock, as one `now` per operation.

The `/chat` handler generates its reply with
`ResponseGenerator.GenerateResponse` over the store's products and orders
as they are when the request arrives.

Two places where the repository disagrees with itself:

- The seed script `server/scripts/add-products.ts:9` stores a product with
  sku `SAM-GA14-KE`, and the add-product form suggests the same shape
  (`client/src/components/AddProductModal.tsx:179`). The SKU expression at
  `server/nlp/entity-extractor.ts:57` rejects it
  (`EntityPatterns.SeedSkuMissed`), while `WH-SWP-100`, the shape it was
  written for, matches (`EntityPatterns.SampleSkuMatches`).
- `server/nlp/openai-service.ts` exists, but `server/routes.ts` never calls
  it: the `/chat` handler uses only the deterministic classifier and
  extractor.

## Model

| member | source | states |
|---|---|---|
| IntentClassifier.MatchCount | server/nlp/intent-classifier.ts:68-70 | the number of phrases found never exceeds the number of phrases |
| IntentClassifier.MatchCountZero | server/nlp/intent-classifier.ts:68-70 | the count is zero exactly when none of the phrases occurs in the message |
| IntentClassifier.Score | server/nlp/intent-classifier.ts:72 | a score lies in [0, 1]; it is 0 exactly when nothing matched, otherwise matches / phrases |
| IntentClassifier.ScanSpec | server/nlp/intent-classifier.ts:67-78 | the loop's result is at least the starting best and at least every entry's score; a name other than the start's is an entry with that best score, ahead of which nothing scored as high |
| IntentClassifier.Classifier.constructor | server/nlp/intent-classifier.ts:22-59 | the classifier holds the ten-entry pattern table in `Object.entries` order |
| IntentClassifier.Classifier.Classify | server/nlp/intent-classifier.ts:61-94 | the loop with its running best returns exactly the scan's intent, with the fallback and the capped confidence |
| IntentClassifier.PatternSizes | server/nlp/intent-classifier.ts:23-57 | the table has ten entries, each with between 1 and 10 phrases |
| IntentClassifier.ClassifyWith | server/nlp/intent-classifier.ts:64-88 | the confidence always lies in [0.5, 1.0], and the name is `general_inquiry` or a name of the table |
| IntentClassifier.ScoreBelowTenth | server/nlp/intent-classifier.ts:72-82 | with at most ten phrases, a score is below 0.1 exactly when no phrase occurs |
| IntentClassifier.RatioAtLeastTenth | server/nlp/intent-classifier.ts:72-82 | one or more hits out of at most ten phrases is a share of at least 0.1 |
| IntentClassifier.FallbackIffNoMatchIn | server/nlp/intent-classifier.ts:67-82 | over a table with at most ten phrases per entry, the best score is below 0.1 exactly when no phrase of any entry occurs |
| IntentClassifier.FallbackIffNoMatch | server/nlp/intent-classifier.ts:82-85 | the fallback fires exactly when no trigger phrase of any intent occurs in the lowercased message |
| IntentClassifier.NoMatchIsGeneral | server/nlp/intent-classifier.ts:63-88 | a message without any trigger phrase is `general_inquiry` with confidence exactly 1.0 |
| IntentClassifier.WinnerIsFirstBestIn | server/nlp/intent-classifier.ts:67-88 | when some phrase occurs, the winner is the first entry with the highest score and the confidence is min(0.5 + score, 1) |
| IntentClassifier.WinnerIsFirstBest | server/nlp/intent-classifier.ts:67-88 | the same for the classifier's own table: strict `>` lets the earlier intent win a tie |
| IntentClassifier.IgnoresCase | server/nlp/intent-classifier.ts:62 | classifying the lowercased message gives the same result |
| IntentClassifier.ScanName | server/nlp/intent-classifier.ts:64-76 | the loop's name is the starting name or a name of the table |
| IntentClassifier.Classification | server/nlp/intent-classifier.ts:4-15 | over the classifier's own table the name is always one of the ten `INTENTS` values, and the confidence lies in [0.5, 1.0] |
| EntityPatterns.SkuAt | server/nlp/entity-extractor.ts:57 | a SKU match at p spans ten characters inside the message |
| EntityPatterns.UnitIndex | server/nlp/entity-extractor.ts:69 | the first unit alternative, in order, that matches as a whole word, and none before it does |
| EntityPatterns.UnitsFrom | server/nlp/entity-extractor.ts:69 | `\s+` then a unit ending on a word boundary, with no digit in between |
| EntityPatterns.QtyAt | server/nlp/entity-extractor.ts:69 | a quantity match starts at a digit on a word boundary and ends inside the message |
| EntityPatterns.BareAt | server/nlp/entity-extractor.ts:81 | a bare-number match starts at p and ends inside the message |
| EntityPatterns.NumberEnd | server/nlp/entity-extractor.ts:96 | the optional `\s+number` group is skipped or covers white space then the word `number` |
| EntityPatterns.GapEnd | server/nlp/entity-extractor.ts:96 | the text between `order` and the digits is in the language `(?:\s*\|:)\s*#?` |
| EntityPatterns.OrderAt | server/nlp/entity-extractor.ts:96 | an order-number match starts at p and ends inside the message |
| EntityPatterns.RuleAt | server/nlp/entity-extractor.ts:57-96 | each expression's match at p lies inside the message |
| EntityPatterns.Exec | server/nlp/entity-extractor.ts:59-98 | `exec` from `lastIndex` returns the leftmost match at or after it, and none means no match from there on |
| EntityPatterns.Matches | server/nlp/entity-extractor.ts:59-105 | the loop reports matches in order, each the expression's match at its start, none overlapping |
| EntityPatterns.MatchesComplete | server/nlp/entity-extractor.ts:59-105 | when matches cannot overlap, every position where the expression matches is reported |
| EntityPatterns.SkuNoOverlap | server/nlp/entity-extractor.ts:57 | no SKU match starts inside another |
| EntityPatterns.QtyNoOverlap | server/nlp/entity-extractor.ts:69 | no quantity match starts inside another |
| EntityPatterns.BareNoOverlap | server/nlp/entity-extractor.ts:81 | no bare-number match starts inside another |
| EntityPatterns.SampleSkuMatches | server/nlp/entity-extractor.ts:57 | `WH-SWP-100` is found as one SKU spanning the whole text |
| EntityPatterns.SeedSkuMissed | server/nlp/entity-extractor.ts:57 | `SAM-GA14-KE` yields no SKU |
| EntityShapes.InMatches | server/nlp/entity-extractor.ts:59-105 | every reported entity is its expression's match at its start |
| EntityShapes.SkuMatchShape | server/nlp/entity-extractor.ts:57-66 | a SKU's value is the message text at its span, two letters, dash, three letters, dash, three digits, with word boundaries on both sides |
| EntityShapes.QtyMatchShape | server/nlp/entity-extractor.ts:69-78 | a unit quantity's value is the digit run only, while its end covers white space and a unit word ending on a word boundary |
| EntityShapes.BareMatchShape | server/nlp/entity-extractor.ts:81-92 | a bare quantity is a whole digit run between word boundaries, equal to the message text at its span |
| EntityShapes.OrderMatchShape | server/nlp/entity-extractor.ts:96-105 | an order number is `order` after a word boundary, the optional `number`, the gap and `#`, then the digit group as its value |
| EntityExtractor.TermHit | server/nlp/entity-extractor.ts:27-37 | a term yields one entity exactly when it occurs, at its first occurrence |
| EntityExtractor.TermEntitiesSpec | server/nlp/entity-extractor.ts:27-120 | every vocabulary entity is a listed term at its first occurrence, and every listed term that occurs is reported |
| EntityExtractor.TermEntitiesFaithful | server/nlp/entity-extractor.ts:27-120 | a vocabulary entity's value is its term, and the lowercased message holds it at [start, end) |
| EntityExtractor.TermEntitiesDistinct | server/nlp/entity-extractor.ts:27-120 | a list of distinct terms gives at most one entity per term |
| EntityExtractor.VocabulariesDistinct | server/nlp/entity-extractor.ts:22-25 | the three vocabularies list each term once |
| EntityExtractor.PushTerms | server/nlp/entity-extractor.ts:27-37 | the `forEach` loop appends exactly the term entities, in list order |
| EntityExtractor.PushTerm | server/nlp/entity-extractor.ts:28-36 | one step pushes the term's first occurrence, if any |
| EntityExtractor.PushMatches | server/nlp/entity-extractor.ts:58-66 | the `while (exec)` loop appends exactly the expression's matches |
| EntityExtractor.ExtractEntities | server/nlp/entity-extractor.ts:17-123 | the method builds exactly the staged result: products, models, SKUs, unit quantities, bare numbers when there was no quantity, order numbers, categories |
| EntityExtractor.OfKind | server/nlp/entity-extractor.ts:84 | the entities of one type are empty exactly when `some` finds none |
| EntityExtractor.NoOtherQuantities | server/nlp/entity-extractor.ts:17-120 | vocabulary, SKU and order passes push no quantity |
| EntityExtractor.QuantitiesBeforeBare | server/nlp/entity-extractor.ts:84 | before the bare pass, the quantities seen are exactly the unit-qualified ones |
| EntityExtractor.BareHitsWhenNoQuantity | server/nlp/entity-extractor.ts:81-93 | bare numbers are added exactly when no unit quantity was found |
| EntityExtractor.QuantityFallback | server/nlp/entity-extractor.ts:68-93 | the reported quantities are the unit quantities if any, otherwise every bare number |
| EntityExtractor.Extraction | server/nlp/entity-extractor.ts:17-122 | entity types appear in pipeline order (products, SKUs, quantities, order numbers, categories), and every entity satisfies 0 <= start <= end <= \|message\| |
| EntityExtractor.DottedCapitalIShiftsOffsets | server/nlp/entity-extractor.ts:19-37 | under JavaScript's full `toLowerCase`, U+0130 followed by " headphones" (12 characters) yields a product entity at 3 to 13, past the end of the message |
| EntityExtractor.ExtractionComplete | server/nlp/entity-extractor.ts:56-93 | every SKU-shaped word and every unit quantity is extracted, and so is every bare number when no unit quantity exists |
| EntityExtractor.FormatEntities | server/nlp/entity-extractor.ts:126-128 | formatting keeps length, order, type name and value |
| EntityExtractor.NameInjective | server/nlp/entity-extractor.ts:5 | distinct entity types have distinct names |
| EntityExtractor.FormatKeepsTypeAndValue | server/nlp/entity-extractor.ts:126-128 | two lists format alike exactly when they agree on types and values position by position |
| ResponseGenerator.FirstOf | server/nlp/response-generator.ts:81-83 | `find` returns none exactly when no entity has that type, otherwise the first with it |
| ResponseGenerator.StatusTextCases | server/nlp/response-generator.ts:44-56 | the listing's stock text is "In Stock: q", "Low Stock: q", or "Out of Stock" for every other status |
| ResponseGenerator.FormatProductsHtmlConcat | server/nlp/response-generator.ts:42-66 | the listing of a concatenation is the two listings joined by a newline |
| ResponseGenerator.FormatProductsHtml | server/nlp/response-generator.ts:42-66 | the listing of no products is empty, of one is its card, and every product's card occurs in it |
| ResponseGenerator.InventoryProducts | server/nlp/response-generator.ts:80-100 | lookup priority: first sku entity (uppercased, exact), else search by the first product entity, else the first category, else every product |
| ResponseGenerator.HandleInventoryCheck | server/nlp/response-generator.ts:102-112 | no products gives the fixed sentence; otherwise the reply opens with "I found N product(s)" (plural unless N = 1) and holds the listing |
| ResponseGenerator.SingleProduct | server/nlp/response-generator.ts:117-131 | the product asked about is the exact uppercased-sku match; else the first product in store order that the product search matches, and none exactly when nothing matches; else none |
| ResponseGenerator.HandleInventoryRestock | server/nlp/response-generator.ts:133-149 | four restock answers: not found; stocked with quantity and no schedule; out of stock with a date and the 15-unit shipment; out of stock without a date |
| ResponseGenerator.StatusMessage | server/nlp/response-generator.ts:165-173 | the phrase is the default exactly when the status is none of the five |
| ResponseGenerator.HandleOrderStatus | server/nlp/response-generator.ts:152-178 | no order-number entity gives the prompt; an unknown number is echoed after '#'; a known order's reply opens with its number and status phrase and shows its date and total |
| ResponseGenerator.AvailabilityCases | server/nlp/response-generator.ts:204 | availability is three-way, with the quantity for in and low stock |
| ResponseGenerator.RestockLine | server/nlp/response-generator.ts:205 | the restock line is present exactly for an out-of-stock product with a date |
| ResponseGenerator.HandleProductInquiry | server/nlp/response-generator.ts:180-208 | an unknown product gives the fixed sentence; a known one's reply names it and holds its description when present and non-empty (the placeholder otherwise), its price, availability and restock line |
| ResponseGenerator.HandlerForCases | server/nlp/response-generator.ts:10-38 | each of the eight handled names selects its own case; every other name, `order_placement` included, is a general inquiry |
| ResponseGenerator.GenerateResponse | server/nlp/response-generator.ts:9-236 | greeting and farewell answer with one of their three texts, returns, help and general with their fixed texts, the rest with their handler |
| Tables.Empty | server/storage.ts:64-69 | a new table is empty with its counter at 1 |
| Tables.ValuesHoldEveryRecord | server/storage.ts:184-186 | every record of the table occurs among the values |
| Tables.GetAfterInsert | server/storage.ts:176-190 | a created record is found under the id it was given; every other id reads as before |
| Tables.GetAfterPut | server/storage.ts:224-235 | an overwritten record is found under its id; every other id reads as before |
| Tables.GetAfterDelete | server/storage.ts:237-240 | a deleted id finds nothing; every other id reads as before |
| Tables.Insert | server/storage.ts:176-181 | the new key is the counter, absent before; it goes last and the counter grows by 1 |
| Tables.Put | server/storage.ts:224-235 | overwriting a present key keeps keys, order and counter |
| Tables.PutPut | server/storage.ts:325-340 | two overwrites of one key equal the last |
| Tables.Delete | server/storage.ts:237-240 | deleting removes exactly that key and keeps the other records in order and the counter |
| Storage.MergeProductTwice | server/storage.ts:224-235 | two merges in a row equal one merge with the combined keys, and merging the same update twice changes nothing more |
| Storage.MergeProductEmpty | server/storage.ts:224-235 | an update without keys only refreshes `updatedAt` |
| Storage.MergeOrderTwice | server/storage.ts:273-285 | merging the same order update twice is merging it once |
| Storage.MergeOrderEmpty | server/storage.ts:273-285 | an empty order update only refreshes `updatedAt` |
| Storage.MergeConversationTwice | server/storage.ts:312-323 | merging the same conversation update twice is merging it once |
| Storage.MergeConversationEmpty | server/storage.ts:312-323 | an empty conversation update only refreshes `updatedAt` |
| Storage.MergeAnalyticsLaws | server/storage.ts:361-371 | an empty analytics update changes nothing, and merging twice is merging once |
| Storage.UserByUsername | server/storage.ts:172-174 | the first user in insertion order with exactly that name, or none when no user has it |
| Storage.ProductBySku | server/storage.ts:192-194 | the first product with exactly that sku, or none |
| Storage.MatchesQuery | server/storage.ts:197-202 | the empty query matches every product |
| Storage.SearchProducts | server/storage.ts:196-203 | exactly the products whose lowercased name, sku or description holds the lowercased query |
| Storage.SearchInOrder | server/storage.ts:196-203 | the search keeps store order: searching a concatenation is searching each part in turn |
| Storage.SearchIgnoresQueryCase | server/storage.ts:197 | the search gives the same result for the lowercased query |
| Storage.ProductsByCategory | server/storage.ts:205-209 | exactly the products whose category equals the argument, case-sensitively |
| Storage.OrderByNumber | server/storage.ts:256-258 | the first order with exactly that number, or none |
| Storage.ActiveConversations | server/storage.ts:291-293 | exactly the conversations whose `active` is true |
| Storage.RecentOrders | server/storage.ts:246-250 | sorted newest first, at most `limit` for limit >= 0, drawn from the orders, no order left out is newer than one kept, and orders with the same `createdAt` keep their insertion order |
| Collections.SortDesc | server/storage.ts:247-249 | the sort is a permutation of its input, ordered by the key (createdAt here) from largest to smallest, and stable: records with equal keys keep their relative order, as `Array.prototype.sort` guarantees |
| Storage.LatestAnalytics | server/storage.ts:346-349 | none exactly for no records, otherwise a record with the greatest date, namely the first such record in insertion order |
| Storage.MemStorage.constructor | server/storage.ts:52-73 | all five tables start empty with their counters at 1 |
| Storage.MemStorage.CreateUser | server/storage.ts:176-182 | the user takes the counter's id, the counter grows by one, and the user is listed last |
| Storage.MemStorage.CreateProduct | server/storage.ts:211-222 | the product takes the counter's id, with both timestamps `now`, and is listed last |
| Storage.MemStorage.UpdateProduct | server/storage.ts:224-235 | an unknown id changes nothing; otherwise the merged product replaces it in place |
| Storage.MemStorage.DeleteProduct | server/storage.ts:237-240 | true exactly when the id was present; it is absent after, and the counter is kept |
| Storage.MemStorage.CreateOrder | server/storage.ts:260-271 | the order takes the counter's id and is listed last |
| Storage.MemStorage.UpdateOrder | server/storage.ts:273-285 | an unknown id changes nothing; otherwise the merged order replaces it in place |
| Storage.MemStorage.CreateConversation | server/storage.ts:299-310 | the conversation takes the counter's id and is listed last |
| Storage.MemStorage.UpdateConversation | server/storage.ts:312-323 | an unknown id changes nothing; otherwise the merged conversation replaces it in place |
| Storage.MemStorage.AddMessageToConversation | server/storage.ts:325-340 | an unknown id changes nothing; otherwise the message goes last in that conversation and every other one is untouched |
| Storage.MemStorage.CreateAnalytics | server/storage.ts:351-359 | the record takes the counter's id and is listed last |
| Storage.MemStorage.UpdateAnalytics | server/storage.ts:361-371 | an unknown id changes nothing; otherwise the merged record replaces it in place |
| Storage.DeletedIdNotReissued | server/storage.ts:237-240 | after a delete, the next create never reuses the deleted id |
| InventoryService.StockStatus | server/services/inventory-service.ts:57-63 | out_of_stock iff q <= 0, low_stock iff 0 < q <= reorder point, in_stock otherwise |
| InventoryService.Restocked | server/services/inventory-service.ts:53-68 | the quantity moves by delta without clamping, the status follows, and nothing else but `updatedAt` changes |
| InventoryService.RestockedStatus | server/services/inventory-service.ts:53-63 | a restocked product's status matches its quantity, out of stock exactly at zero or below |
| InventoryService.RestockedTwice | server/services/inventory-service.ts:46-69 | two stock changes are one change by their sum |
| InventoryService.RestockedZero | server/services/inventory-service.ts:46-69 | a zero change to a consistent product only refreshes `updatedAt` |
| InventoryService.UpdateStock | server/services/inventory-service.ts:46-69 | an unknown id changes nothing; otherwise the product is replaced in place by its restocked version |
| InventoryService.WithRestockDate | server/services/inventory-service.ts:72-76 | only `nextRestock` and `updatedAt` change |
| InventoryService.SetRestockDate | server/services/inventory-service.ts:72-76 | an unknown id changes nothing; otherwise the dated product replaces it in place |
| InventoryService.LowStockProducts | server/services/inventory-service.ts:79-84 | exactly the low- or out-of-stock products |
| InventoryService.LowStockInOrder | server/services/inventory-service.ts:81-83 | the filter keeps store order |
| InventoryService.Summarize | server/services/inventory-service.ts:87-110 | the product count, the count per status, whose sum never exceeds the product count, and the mean quantity |
| InventoryService.AverageStock | server/services/inventory-service.ts:100-101 | the mean is 0 for no products and otherwise times the count equals the total |
| InventoryService.AverageWithin | server/services/inventory-service.ts:100-101 | the mean lies between the smallest and the largest quantity |
| InventoryService.ConsistentSummaryComplete | server/services/inventory-service.ts:96-98 | when every status is consistent, the three counts add up to the product count |
| OrderService.ApplyItem | server/services/order-service.ts:32-36 | an item changes no key, order or counter of the products |
| OrderService.ApplyItems | server/services/order-service.ts:32-36 | the item loop changes no key, order or counter |
| OrderService.TouchedIff | server/services/order-service.ts:33 | a product is touched exactly when some item names it with a non-zero quantity |
| OrderService.ApplyItemsEffect | server/services/order-service.ts:32-36 | an untouched product stays as it was; a touched one is restocked once by minus the sum of its items' quantities |
| OrderService.ApplyItemsFields | server/services/order-service.ts:32-36 | only quantity, status and `updatedAt` of any product change |
| OrderService.TakeItem | server/services/order-service.ts:33-35 | one loop step replaces the products by the item's effect |
| OrderService.TakeStock | server/services/order-service.ts:32-36 | the loop replaces the products by the effect of every item, in order |
| OrderService.CreateOrder | server/services/order-service.ts:27-39 | the order is stored first under the next id, then the stock of its items is taken |
| OrderService.UpdateOrderStatus | server/services/order-service.ts:42-44 | an unknown id changes nothing; otherwise only that order's status and `updatedAt` change |
| OrderService.Summarize | server/services/order-service.ts:47-78 | the order count and the count per status, whose sum never exceeds the order count |
| JsText.ParseIntRoundTrip | server/routes.ts:35 | `parseInt` reads the decimal form of any integer back |
| ChatRoute.ExistingByDecimalId | server/routes.ts:33-36 | a `conversationId` that is the decimal form of a stored id finds exactly that conversation |
| ChatRoute.RecordedHolds | server/routes.ts:64-76 | the recorded conversation ends with user then bot after its earlier messages; a new one has only the two, no user, `active` true and the intent's name |
| ChatRoute.RecordedKeepsOthers | server/routes.ts:64-76 | every other conversation is untouched and none is lost |
| ChatRoute.Record | server/routes.ts:64-76 | two appends, or one create, leave the table as the recorded table and return the conversation's id |
| ChatRoute.Chat | server/routes.ts:19-89 | a malformed body gives status 500 and no change; otherwise the reply is `GenerateResponse` over the store's products and orders, and the response carries the bot message, the classified intent, the formatted entities and the recording conversation's id |
| ClientNlp.Label | client/src/lib/nlp.ts:86 | for a listed key, the label of the first row with that key (no earlier row has it); none when the key is not listed |
| ClientNlp.LookupOrSpec | client/src/lib/nlp.ts:21-23 | `table[key] \|\| key` gives the listed key's label and returns the key unchanged when it is not listed |
| ClientNlp.IntentDescriptionsCover | client/src/lib/nlp.ts:7-18 | the label table lists exactly the ten intents, once each, with non-empty labels |
| ClientNlp.IntentDescription | client/src/lib/nlp.ts:21-23 | a listed intent gets its label; any name that is not an intent is returned unchanged |
| ClientNlp.ClassifiedIntentDescribed | client/src/lib/nlp.ts:21-23 | every name the classifier returns has its own label |
| ClientNlp.EntityDisplayNamesCover | client/src/lib/nlp.ts:76-84 | the display table lists the seven entity types once each, with non-empty labels |
| ClientNlp.EntityTypeDisplayed | client/src/lib/nlp.ts:75-87 | every extractor entity type gets its own label |
| ClientNlp.OtherEntityNameKept | client/src/lib/nlp.ts:86 | a name that is no entity type is returned unchanged |
| ClientNlp.EntityDisplayName | client/src/lib/nlp.ts:75-87 | a listed entity type gets its display label; an unlisted name is returned unchanged |
| ClientNlp.ReliableClassification | client/src/lib/nlp.ts:31-33 | a classification is reliable (>= 0.7) exactly when it fell back or its score is at least 0.2 |
| ClientNlp.HasHtmlTags | client/src/lib/nlp.ts:41 | the scan succeeds exactly when some `<`, ASCII letter, ..., `>` occurs |
| ClientNlp.ExtractHtmlContent | client/src/lib/nlp.ts:36-55 | the html is null exactly when the content holds no tag, and then the text is the content |
| ClientNlp.ExtractWithTags | client/src/lib/nlp.ts:43-51 | with a tag the html is the content from the first `<`, the untrimmed prefix plus the html is the content, and the text is the trimmed prefix, empty when `<` is at 0 |
| ClientNlp.ExtractedTextPlain | client/src/lib/nlp.ts:45-46 | the text part holds no `<` |
| ClientNlp.ExtractedHtmlStartsWithTag | client/src/lib/nlp.ts:45-49 | with a tag the html part starts with `<` |
| ClientNlp.Group | client/src/lib/nlp.ts:61-69 | the grouping is well formed: its key list, in first-appearance order, lists each key once and is exactly its map's domain |
| ClientNlp.GroupLists | client/src/lib/nlp.ts:63-69 | a key is present exactly when some entity has it, and its list is that key's values in input order |
| ClientNlp.GroupTotal | client/src/lib/nlp.ts:63-69 | the grouped lists hold as many values as the input |
| ClientNlp.ParseEntities | client/src/lib/nlp.ts:58-72 | the `forEach` that creates and pushes builds exactly that grouping |
| RecentOrders.ElapsedRanges | client/src/components/RecentOrders.tsx:14-23 | minutes below one hour, hours from one hour to below a day, days from there; the count is the whole number of units elapsed |
| RecentOrders.PhraseReadsBack | client/src/components/RecentOrders.tsx:19-23 | the phrase reads back through `parseInt` as its count |
| RecentOrders.PhrasePlural | client/src/components/RecentOrders.tsx:19-23 | the phrase ends in "s ago" exactly when the count is not 1 |
| RecentOrders.FormatRelativeTime | client/src/components/RecentOrders.tsx:9-25 | the result reads back as the whole units elapsed, is plural exactly when that is not 1, and says "minute" below one hour (fewer than 60), "hour" below one day (1 to 23) and "day" from one day on (at least 1) |
| RecentOrders.ClassTablesCover | client/src/components/RecentOrders.tsx:29-61 | the three tables list the same five order statuses once each, with classes |
| RecentOrders.StatusBadgeClass | client/src/components/RecentOrders.tsx:28-39 | each of the five statuses gets its own badge classes; any other status gets the gray default |
| RecentOrders.IconBgClass | client/src/components/RecentOrders.tsx:41-52 | each of the five statuses gets its own icon background; any other status gets the gray default |
| RecentOrders.IconColorClass | client/src/components/RecentOrders.tsx:54-65 | each of the five statuses gets its own icon colour; any other status gets the gray default |

## Findings

| source | as written | input that shows it | evidently intended | confidence | as-written member | corrected member |
|---|---|---|---|---|---|---|
| server/nlp/entity-extractor.ts:19-37 | entity offsets are `indexOf` positions in `message.toLowerCase()`, reported as positions in `message` | U+0130 followed by " headphones": the lowercased text is one character longer, so the product entity spans 3 to 13 in a 12-character message | offsets index the original message: 0 <= start <= end <= length | not executed | EntityExtractor.DottedCapitalIShiftsOffsets | EntityExtractor.Extraction |

## Left out

- `getTodaysOrders`: depends on the local time zone through `setHours`; not modelled.
- OrderService.Summarize: `totalValue` and `averageValue` are floating-point sums of `Number(order.total)`; only the counts are modelled.
- InventoryService.Summarize: `averageStock` is an exact rational, not an IEEE double.
- `formatConfidence`: rounds a floating-point product; not modelled.
- The hosted-model client `server/nlp/openai-service.ts` is not part of this model; the `/chat` handler does not call it.
- The other `server/routes.ts` endpoints are thin pass-throughs to HTTP status codes and are not modelled.
- React components, hooks and page state are not modelled.
- `MemStorage.initializeData` (seed data read at start-up with `Date.now()`) is not modelled; the store starts empty.
- Seed scripts under `server/scripts/` are database I/O and are not modelled.
- `uuidv4()`, `Math.random`, `new Date()` and date formatting are parameters. One `now` is used per operation, so both messages of an exchange carry the same timestamp.
- ChatRoute.Chat: request validation by zod is reduced to the shape predicate `WellShaped`; errors thrown by the store are not modelled.
- The `contextMessages` argument of `generateResponse` is accepted and never read, as in the code.
- ConversationPatch: the `id` key of `Partial<Conversation>` is not modelled.
- JavaScript object key order for integer-like keys is not modelled.
- Keys inherited from `Object.prototype` are not modelled, such as `"constructor"` in the label lookups and in `parseEntities`.
- RecentOrders.FormatRelativeTime takes `diffMs` as an integer. An invalid date, which produces NaN, is not modelled.
- Promises and `async` are treated as sequential calls.
- Storage.LatestAnalytics: every record has a date. In the code `date` is nullable (`shared/schema.ts:94`) and optional on insert, and `createAnalytics` stores it as given. `new Date(null)` sorts as 0 and an undefined date gives `NaN`, which leaves the order to the sort. Records without a date are not modelled.
- ChatRoute.Chat: classifies with `classifier.patterns`. It does not require these to be the pattern table, which the route's single classifier holds.
- JsText.Lower: maps only the ASCII letters A-Z. JavaScript's `toLowerCase` applies full Unicode case mapping, which can change the length of a string: U+0130 becomes two code units. `JsText.LowerWithDottedI` adds that one case, to exhibit the finding below.
- JsText.Upper: maps only the ASCII letters a-z, where `toUpperCase` applies full Unicode case mapping (`ß` becomes `SS`).
- One `char` is one Unicode code point, where JavaScript strings count UTF-16 code units. Offsets and lengths agree for text within the Basic Multilingual Plane.
- IntentClassifier.Classifier.Classify: lowercases with the ASCII-only `Lower`. For `"hİ"` the code's `toLowerCase` gives `"hi̇"`, which holds the greeting phrase `"hi"`, while the model answers `general_inquiry`.
- EntityExtractor.ExtractEntities: lowercases with the ASCII-only `Lower` and counts code points. So its offsets differ from the code's after a character whose lowercase form is longer, or after a character outside the Basic Multilingual Plane, such as an emoji.
- EntityExtractor.Extraction: its offsets stay within the message because `Lower` keeps the length. The code's offsets do not always, as the finding above shows.
- Storage.SearchProducts: matches case-insensitively for ASCII letters only. The code's search for `"écouteurs"` finds a product named `"Écouteurs"`; the model's does not.
- Numbers are unbounded integers and exact rationals. JavaScript numbers are doubles, so counts, quantities and ids lose precision above 2^53. `JsText.IntToString` never uses the exponent form that `${n}` uses from 1e21 on.
- OrderService.CreateOrder: items are typed `(productId: int, quantity: int)`. The code reads `items` as `any[]`, so a string `productId` such as `"2"` or a fractional quantity is possible there and cannot be written in the model.
