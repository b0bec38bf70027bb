/** The client's NLP helpers: the labels shown for intent and entity
    names, the confidence threshold, the split of a bot reply into its
    leading text and its HTML part, and the grouping of a message's
    entities by type. */
module ClientNlp {
  import opened Collections
  import opened JsText
  import opened Schema
  import IC = IntentClassifier

  /** A string-keyed lookup table written as an object literal, in
      declaration order. */
  type LabelTable = seq<(string, string)>

  function Keys(table: LabelTable): (r: seq<string>)
    ensures |r| == |table| && forall i :: 0 <= i < |r| ==> r[i] == table[i].0
  {
    seq(|table|, i requires 0 <= i < |table| => table[i].0)
  }

  /** `table[key]`, with `None` for undefined. */
  function Label(table: LabelTable, key: string): (r: Option<string>)
    ensures r.None? <==> forall i :: 0 <= i < |table| ==> table[i].0 != key
    ensures r.Some? ==> exists i :: 0 <= i < |table| && table[i] == (key, r.value)
                                    && forall j :: 0 <= j < i ==> table[j].0 != key
  {
    if table == [] then None
    else if table[0].0 == key then Some(table[0].1)
    else
      var r := Label(table[1..], key);
      assert forall i :: 1 <= i < |table| ==> table[i] == table[1..][i - 1];
      r
  }

  /** `table[key] || fallback`: the label, unless it is missing or
      empty. */
  function LookupOr(table: LabelTable, key: string, fallback: string): string
  {
    match Label(table, key)
    case Some(l) => if l != "" then l else fallback
    case None => fallback
  }

  /** A table whose keys are distinct and whose labels are non-empty. */
  predicate WellFormed(table: LabelTable)
  {
    Distinct(Keys(table)) && forall i :: 0 <= i < |table| ==> table[i].1 != ""
  }

  /** Over a well-formed table a listed key gets exactly its own label, and
      any other key the fallback. */
  lemma {:induction false} LookupOrSpec(table: LabelTable, key: string, fallback: string)
    requires WellFormed(table)
    ensures forall i :: 0 <= i < |table| && table[i].0 == key ==> LookupOr(table, key, fallback) == table[i].1
    ensures (forall i :: 0 <= i < |table| ==> table[i].0 != key) ==> LookupOr(table, key, fallback) == fallback
  {
    var r := Label(table, key);
    if r.Some? {
      var w :| 0 <= w < |table| && table[w] == (key, r.value);
      forall i | 0 <= i < |table| && table[i].0 == key
        ensures LookupOr(table, key, fallback) == table[i].1
      {
        assert Keys(table)[i] == Keys(table)[w];
      }
    }
  }

  /** `intentDescriptions`. */
  const IntentDescriptions: LabelTable := [
    (IC.Greeting, "Greeting"),
    (IC.InventoryCheck, "Inventory Check"),
    (IC.InventoryRestock, "Inventory Restock"),
    (IC.OrderStatus, "Order Status"),
    (IC.OrderPlacement, "Order Placement"),
    (IC.ProductInquiry, "Product Inquiry"),
    (IC.ReturnsRefunds, "Returns & Refunds"),
    (IC.GeneralInquiry, "General Inquiry"),
    (IC.Help, "Help Request"),
    (IC.Goodbye, "Farewell")
  ]

  /** `getIntentDescription`: `intentDescriptions[intent] || intent`.
      Each of the ten intents is shown by its own label, and any other name
      as it is. */
  function IntentDescription(intent: string): (r: string)
    ensures forall i :: 0 <= i < |IntentDescriptions| && IntentDescriptions[i].0 == intent
              ==> r == IntentDescriptions[i].1
    ensures intent !in IC.Intents ==> r == intent
  {
    IntentDescriptionsCover();
    LookupOrSpec(IntentDescriptions, intent, intent);
    LookupOr(IntentDescriptions, intent, intent)
  }

  /** The table lists the server's intents, in the server's order, each
      once and each with a non-empty label. */
  lemma IntentDescriptionsCover()
    ensures Keys(IntentDescriptions) == IC.Intents
    ensures WellFormed(IntentDescriptions)
  {
  }

  /** Every intent the classifier can report has a label of its own. */
  lemma ClassifiedIntentDescribed(message: string)
    ensures var name := IC.Classification(message).name;
            exists i :: 0 <= i < |IntentDescriptions| && IntentDescriptions[i].0 == name
                        && IntentDescription(name) == IntentDescriptions[i].1
  {
    var name := IC.Classification(message).name;
    IntentDescriptionsCover();
    var i :| 0 <= i < |IC.Intents| && IC.Intents[i] == name;
    assert IntentDescriptions[i].0 == Keys(IntentDescriptions)[i];
  }

  /** The `displayNames` of `getEntityDisplayName`. */
  const EntityDisplayNames: LabelTable := [
    ("product", "Product"),
    ("quantity", "Quantity"),
    ("sku", "SKU"),
    ("order_number", "Order Number"),
    ("date", "Date"),
    ("category", "Category"),
    ("customer_name", "Customer")
  ]

  /** `getEntityDisplayName`: `displayNames[entity] || entity`. A listed
      type name gets its label, and any other name is shown as it is. */
  function EntityDisplayName(entity: string): (r: string)
    ensures forall i :: 0 <= i < |EntityDisplayNames| && EntityDisplayNames[i].0 == entity
              ==> r == EntityDisplayNames[i].1
    ensures (forall i :: 0 <= i < |EntityDisplayNames| ==> EntityDisplayNames[i].0 != entity) ==> r == entity
  {
    EntityDisplayNamesCover();
    LookupOrSpec(EntityDisplayNames, entity, entity);
    LookupOr(EntityDisplayNames, entity, entity)
  }

  /** The seven entity types, in the table's order. */
  const DisplayedTypes: seq<EntityType> := [ProductEntity, QuantityEntity, SkuEntity, OrderNumberEntity,
                                            DateEntity, CategoryEntity, CustomerNameEntity]

  /** The table's keys are exactly the names of the seven entity types. */
  lemma EntityDisplayNamesCover()
    ensures |DisplayedTypes| == |EntityDisplayNames|
    ensures forall i :: 0 <= i < |DisplayedTypes| ==> EntityDisplayNames[i].0 == DisplayedTypes[i].Name()
    ensures WellFormed(EntityDisplayNames)
  {
  }

  /** Every entity type the extractor produces is shown by its own
      label. */
  lemma EntityTypeDisplayed(e: EntityType)
    ensures exists i :: 0 <= i < |EntityDisplayNames| && EntityDisplayNames[i].0 == e.Name()
                        && EntityDisplayName(e.Name()) == EntityDisplayNames[i].1
  {
    EntityDisplayNamesCover();
    var i := match e
      case ProductEntity => 0 case QuantityEntity => 1 case SkuEntity => 2 case OrderNumberEntity => 3
      case DateEntity => 4 case CategoryEntity => 5 case CustomerNameEntity => 6;
    assert DisplayedTypes[i] == e;
  }

  /** A name that is no entity type's is shown as it is. */
  lemma OtherEntityNameKept(name: string)
    requires forall t: EntityType :: t.Name() != name
    ensures EntityDisplayName(name) == name
  {
    EntityDisplayNamesCover();
    forall j | 0 <= j < |EntityDisplayNames| ensures EntityDisplayNames[j].0 != name {
      assert EntityDisplayNames[j].0 == DisplayedTypes[j].Name();
    }
  }

  /** `isConfidenceReliable`. */
  predicate IsConfidenceReliable(confidence: real)
  {
    confidence >= 0.7
  }

  /** A classification is flagged unreliable exactly when the best score
      matched something (at least 0.1) but stayed below 0.2; the fallback to
      `general_inquiry` reports 1.0 and is always reliable. */
  lemma ReliableClassification(table: seq<(string, seq<string>)>, message: string)
    ensures var best := IC.Scan(table, Lower(message), 0, 0.0, IC.GeneralInquiry).1;
            IsConfidenceReliable(IC.ClassifyWith(table, message).confidence) <==> best < 0.1 || best >= 0.2
  {
  }

  /** `/<[a-z]/i` matches at `i`: a `<` followed by an ASCII letter. */
  predicate TagOpenAt(s: string, i: int)
  {
    0 <= i && i + 1 < |s| && s[i] == '<' && IsAsciiLetter(s[i + 1])
  }

  /** `/<[a-z][\s\S]*>/i` matches from `i` to `j`: `[\s\S]*` takes any
      characters, so any later `>` closes the match. */
  predicate TagAt(s: string, i: int, j: int)
  {
    TagOpenAt(s, i) && i + 1 < j < |s| && s[j] == '>'
  }

  /** The first `i >= k` at which a tag opens, if any. */
  function TagOpenFrom(s: string, k: nat): (r: Option<nat>)
    ensures r.Some? ==> k <= r.value && TagOpenAt(s, r.value) && forall j :: k <= j < r.value ==> !TagOpenAt(s, j)
    ensures r.None? ==> forall j :: k <= j ==> !TagOpenAt(s, j)
    decreases |s| - k
  {
    if k + 1 >= |s| then None
    else if TagOpenAt(s, k) then Some(k)
    else TagOpenFrom(s, k + 1)
  }

  /** The offset of the last `>` at or after `k`, if any. */
  function LastCloseFrom(s: string, k: nat): (r: Option<nat>)
    ensures r.Some? ==> k <= r.value < |s| && s[r.value] == '>' && forall j :: r.value < j < |s| ==> s[j] != '>'
    ensures r.None? ==> forall j :: k <= j < |s| ==> s[j] != '>'
    decreases |s| - k
  {
    if k >= |s| then None
    else match LastCloseFrom(s, k + 1)
      case Some(j) => Some(j)
      case None => if s[k] == '>' then Some(k) else None
  }

  /** `/<[a-z][\s\S]*>/i.test(content)`, as a scan: the first tag opening
      and the last `>` after its letter. The scan agrees with the regular
      expression: it succeeds exactly when some match exists. */
  predicate HasHtmlTags(content: string)
    ensures HasHtmlTags(content) <==> exists i, j :: TagAt(content, i, j)
  {
    match TagOpenFrom(content, 0)
    case None => false
    case Some(i) =>
      match LastCloseFrom(content, i + 2)
      case Some(j) => assert TagAt(content, i, j); true
      case None => false
  }

  datatype Extracted = Extracted(text: string, html: Option<string>)

  /** `extractHtmlContent`: content without a tag is all text and has no
      HTML part; content with one has an HTML part. */
  function ExtractHtmlContent(content: string): (r: Extracted)
    ensures r.html.None? <==> forall i, j :: !TagAt(content, i, j)
    ensures r.html.None? ==> r.text == content
  {
    if HasHtmlTags(content) then SplitAt(content, IndexOf(content, "<"))
    else Extracted(content, None)
  }

  /** The two parts of tagged content, given `firstTagIndex`. */
  function SplitAt(content: string, firstTagIndex: int): Extracted
    requires firstTagIndex <= |content|
  {
    var text := if firstTagIndex > 0 then Trim(content[..firstTagIndex]) else "";
    var html := if firstTagIndex >= 0 then content[firstTagIndex..] else content;
    Extracted(text, Some(html))
  }

  /** With a tag, the HTML part runs from the first `<` (which may come
      before the tag itself; `FirstLessThan` says which one `indexOf`
      finds) to the end and the text is the trimmed part
      before it, empty when the content starts with `<`; the untrimmed
      prefix and the HTML part make up the content. */
  lemma ExtractWithTags(content: string, i: int, j: int, k: int)
    requires TagAt(content, i, j) && k == IndexOf(content, "<")
    ensures var r := ExtractHtmlContent(content);
            && 0 <= k <= i
            && r.html == Some(content[k..])
            && content[..k] + r.html.value == content
            && (k == 0 ==> r.text == [])
            && (k > 0 ==> r.text == Trim(content[..k]))
  {
    FirstLessThan(content, i);
    ExtractAt(content, i, j, k);
    assert content[..k] + content[k..] == content;
  }

  /** The text of a tagged reply holds no `<`: it comes from before the
      first one. */
  lemma ExtractedTextPlain(content: string, i: int, j: int)
    requires TagAt(content, i, j)
    ensures var r := ExtractHtmlContent(content);
            forall m :: 0 <= m < |r.text| ==> r.text[m] != '<'
  {
    FirstLessThan(content, i);
    var k := IndexOf(content, "<");
    ExtractAt(content, i, j, k);
    if k > 0 {
      TrimKeeps(content[..k], '<');
    }
  }

  /** The two parts of a tagged reply, given where its first `<` is. */
  lemma ExtractAt(content: string, i: int, j: int, k: int)
    requires TagAt(content, i, j) && 0 <= k < |content| && k == IndexOf(content, "<")
    ensures var r := ExtractHtmlContent(content);
            && r.html == Some(content[k..])
            && r.text == if k > 0 then Trim(content[..k]) else []
  {
    assert ExtractHtmlContent(content) == SplitAt(content, k);
  }

  /** A one-character string occurs exactly where that character is. */
  lemma OccursChar(s: string, c: char, m: int)
    ensures OccursAt(s, [c], m) <==> 0 <= m < |s| && s[m] == c
  {
    if 0 <= m < |s| {
      assert s[m..m + 1] == [s[m]];
    }
  }

  /** `indexOf('<')` finds the first `<`, which is at or before any other. */
  lemma FirstLessThan(content: string, i: int)
    requires 0 <= i < |content| && content[i] == '<'
    ensures var k := IndexOf(content, "<");
            0 <= k <= i && content[k] == '<' && forall m :: 0 <= m < k ==> content[m] != '<'
  {
    var k := IndexOf(content, "<");
    OccursChar(content, '<', i);
    OccursChar(content, '<', k);
    forall m | 0 <= m < k ensures content[m] != '<' {
      OccursChar(content, '<', m);
    }
  }

  /** Trimming adds no character. */
  lemma TrimKeeps(p: string, c: char)
    requires forall m :: 0 <= m < |p| ==> p[m] != c
    ensures forall m :: 0 <= m < |Trim(p)| ==> Trim(p)[m] != c
  {
    var t := Trim(p);
    var a, b :| 0 <= a <= b <= |p| && t == p[a..b];
    forall m | 0 <= m < |t| ensures t[m] != c {
      assert t[m] == p[a + m];
    }
  }

  /** The HTML part of a tagged reply starts with `<`. */
  lemma ExtractedHtmlStartsWithTag(content: string, i: int, j: int)
    requires TagAt(content, i, j)
    ensures var r := ExtractHtmlContent(content);
            r.html.Some? && r.html.value != [] && r.html.value[0] == '<'
  {
    FirstLessThan(content, i);
    var k := IndexOf(content, "<");
    ExtractAt(content, i, j, k);
  }

  /** The object `parseEntities` returns: its own keys in insertion order
      and the list under each key. */
  datatype Grouped = Grouped(keys: seq<string>, lists: map<string, seq<string>>)

  /** The keys are listed once each, and they are exactly the map's keys. */
  ghost predicate WellGrouped(g: Grouped)
  {
    Distinct(g.keys) && forall k :: k in g.lists <==> k in g.keys
  }

  /** One step of the `forEach`: a new key starts an empty list, then the
      value is pushed. */
  function GroupOne(g: Grouped, e: EntityValue): Grouped
  {
    var started := if e.entity in g.lists then g
                   else Grouped(g.keys + [e.entity], g.lists[e.entity := []]);
    started.(lists := started.lists[e.entity := started.lists[e.entity] + [e.value]])
  }

  /** The object after the `forEach` over `entities`. */
  function Group(entities: seq<EntityValue>): (g: Grouped)
    ensures WellGrouped(g)
  {
    if entities == [] then Grouped([], map[])
    else GroupOne(Group(entities[..|entities| - 1]), entities[|entities| - 1])
  }

  /** The values whose entity is `key`, in input order. */
  function ValuesFor(entities: seq<EntityValue>, key: string): seq<string>
  {
    if entities == [] then []
    else ValuesFor(entities[..|entities| - 1], key)
         + (if entities[|entities| - 1].entity == key then [entities[|entities| - 1].value] else [])
  }

  /** `ValuesFor` is empty exactly when no entity has that key. */
  lemma {:induction false} ValuesForEmpty(entities: seq<EntityValue>, key: string)
    ensures ValuesFor(entities, key) == [] <==> forall i :: 0 <= i < |entities| ==> entities[i].entity != key
    decreases |entities|
  {
    if entities != [] {
      var front := entities[..|entities| - 1];
      ValuesForEmpty(front, key);
      assert forall i :: 0 <= i < |front| ==> front[i] == entities[i];
    }
  }

  /** One step adds the value to its entity's list and leaves the other
      lists alone. */
  lemma GroupOneShape(g: Grouped, e: EntityValue)
    ensures e.entity in g.lists ==> GroupOne(g, e) == Grouped(g.keys, g.lists[e.entity := g.lists[e.entity] + [e.value]])
    ensures e.entity !in g.lists ==> GroupOne(g, e) == Grouped(g.keys + [e.entity], g.lists[e.entity := [e.value]])
  {
    if e.entity !in g.lists {
      var started := g.lists[e.entity := []];
      assert started[e.entity] + [e.value] == [e.value];
      assert started[e.entity := [e.value]] == g.lists[e.entity := [e.value]];
    }
  }

  lemma {:induction false} GroupValues(entities: seq<EntityValue>, key: string)
    ensures key in Group(entities).lists <==> ValuesFor(entities, key) != []
    ensures key in Group(entities).lists ==> Group(entities).lists[key] == ValuesFor(entities, key)
    decreases |entities|
  {
    if entities != [] {
      var front := entities[..|entities| - 1];
      var e := entities[|entities| - 1];
      GroupValues(front, key);
      GroupOneShape(Group(front), e);
    }
  }

  /** `parseEntities`: the keys are the entity names that occur, and the
      list under a key holds the values of that entity in input order. */
  lemma GroupLists(entities: seq<EntityValue>, key: string)
    ensures key in Group(entities).lists <==> exists i :: 0 <= i < |entities| && entities[i].entity == key
    ensures key in Group(entities).lists ==> Group(entities).lists[key] == ValuesFor(entities, key)
  {
    ValuesForEmpty(entities, key);
    GroupValues(entities, key);
  }

  /** The total length of the lists, key by key. */
  function SumLengths(keys: seq<string>, lists: map<string, seq<string>>): nat
  {
    if keys == [] then 0
    else SumLengths(keys[..|keys| - 1], lists) + (if keys[|keys| - 1] in lists then |lists[keys[|keys| - 1]]| else 0)
  }

  /** Changing the list of a key that is not listed changes no sum. */
  lemma {:induction false} SumLengthsOther(keys: seq<string>, lists: map<string, seq<string>>, k: string, l: seq<string>)
    requires k !in keys
    ensures SumLengths(keys, lists[k := l]) == SumLengths(keys, lists)
    decreases |keys|
  {
    if keys != [] {
      SumLengthsOther(keys[..|keys| - 1], lists, k, l);
    }
  }

  /** Pushing one value onto the list of a listed key adds one. */
  lemma {:induction false} SumLengthsPush(keys: seq<string>, lists: map<string, seq<string>>, k: string, v: string)
    requires Distinct(keys) && k in keys && k in lists
    ensures SumLengths(keys, lists[k := lists[k] + [v]]) == SumLengths(keys, lists) + 1
    decreases |keys|
  {
    var front := keys[..|keys| - 1];
    var last := keys[|keys| - 1];
    if last == k {
      assert k !in front by {
        assert forall i :: 0 <= i < |front| ==> front[i] == keys[i] != keys[|keys| - 1];
      }
      SumLengthsOther(front, lists, k, lists[k] + [v]);
    } else {
      assert k in front by {
        var i :| 0 <= i < |keys| && keys[i] == k;
        assert front[i] == k;
      }
      assert Distinct(front) by {
        assert forall i :: 0 <= i < |front| ==> front[i] == keys[i];
      }
      SumLengthsPush(front, lists, k, v);
    }
  }

  /** Every input entity is grouped exactly once: the lists hold as many
      values as there were entities. */
  lemma {:induction false} GroupTotal(entities: seq<EntityValue>)
    ensures SumLengths(Group(entities).keys, Group(entities).lists) == |entities|
    decreases |entities|
  {
    if entities != [] {
      var front := entities[..|entities| - 1];
      var e := entities[|entities| - 1];
      var g := Group(front);
      GroupTotal(front);
      GroupOneShape(g, e);
      if e.entity in g.lists {
        SumLengthsPush(g.keys, g.lists, e.entity, e.value);
      } else {
        var keys := g.keys + [e.entity];
        var lists := g.lists[e.entity := [e.value]];
        assert keys[..|keys| - 1] == g.keys;
        assert SumLengths(keys, lists) == SumLengths(g.keys, lists) + 1;
        SumLengthsOther(g.keys, g.lists, e.entity, [e.value]);
      }
    }
  }

  /** `parseEntities`, with its `forEach` loop. */
  method ParseEntities(entities: seq<EntityValue>) returns (parsed: Grouped)
    ensures parsed == Group(entities)
  {
    parsed := Grouped([], map[]);
    for k := 0 to |entities|
      invariant parsed == Group(entities[..k])
    {
      assert entities[..k + 1][..k] == entities[..k];
      var e := entities[k];
      if e.entity !in parsed.lists {
        parsed := Grouped(parsed.keys + [e.entity], parsed.lists[e.entity := []]);
      }
      parsed := parsed.(lists := parsed.lists[e.entity := parsed.lists[e.entity] + [e.value]]);
    }
    assert entities[..|entities|] == entities;
  }
}
