/** `EntityExtractor.extractEntities`: vocabulary lookups with `indexOf` on
    the lowercased message, then the four global regular expressions run
    over the message as written, each appending its matches in order; and
    `formatEntities`, which keeps only the type name and the value. */
module EntityExtractor {
  import opened Collections
  import opened JsText
  import opened Schema
  import opened EntityPatterns

  const CommonProducts: seq<string> := ["headphones", "earbuds", "speakers", "soundbar", "microphone",
                                        "bluetooth", "wireless", "laptop", "smartphone", "tablet"]

  const ProductModels: seq<string> := ["soundwave pro x", "audiopeak max", "bassboost elite"]

  const Categories: seq<string> := ["electronics", "audio", "computers", "accessories", "speakers", "headphones"]

  /** What one `forEach` step pushes for a term: its first occurrence, if
      there is one. */
  function TermHit(text: string, term: string, kind: EntityType): (r: seq<Entity>)
    ensures |r| <= 1
    ensures r != [] <==> Includes(text, term)
    ensures r != [] ==> r[0] == Entity(kind, term, IndexOf(text, term), IndexOf(text, term) + |term|)
  {
    var index := IndexOf(text, term);
    if index >= 0 then [Entity(kind, term, index, index + |term|)] else []
  }

  /** The entities a `terms.forEach(...)` loop pushes, in list order. */
  function TermEntities(text: string, terms: seq<string>, kind: EntityType): (r: seq<Entity>)
    ensures |r| <= |terms|
  {
    if terms == [] then [] else TermEntities(text, terms[..|terms| - 1], kind) + TermHit(text, terms[|terms| - 1], kind)
  }

  /** Each pushed entity is a term of the list, of the loop's type, at the
      term's first occurrence. */
  predicate TermEntitiesSound(text: string, terms: seq<string>, kind: EntityType, r: seq<Entity>)
  {
    forall i :: 0 <= i < |r| ==>
      && r[i].entity == kind && r[i].value in terms
      && r[i].start == IndexOf(text, r[i].value) && OccursAt(text, r[i].value, r[i].start)
      && r[i].end == r[i].start + |r[i].value|
  }

  /** Every term of the list that occurs is pushed. */
  predicate TermEntitiesComplete(text: string, terms: seq<string>, r: seq<Entity>)
  {
    forall t :: t in terms && Includes(text, t) ==> exists i :: 0 <= i < |r| && r[i].value == t
  }

  predicate TermEntitiesOk(text: string, terms: seq<string>, kind: EntityType, r: seq<Entity>)
  {
    TermEntitiesSound(text, terms, kind, r) && TermEntitiesComplete(text, terms, r)
  }

  lemma {:induction false} TermEntitiesSoundSpec(text: string, terms: seq<string>, kind: EntityType)
    ensures TermEntitiesSound(text, terms, kind, TermEntities(text, terms, kind))
    decreases |terms|
  {
    if terms != [] {
      var init := terms[..|terms| - 1];
      var last := terms[|terms| - 1];
      TermEntitiesSoundSpec(text, init, kind);
      var front := TermEntities(text, init, kind);
      var hit := TermHit(text, last, kind);
      var r := TermEntities(text, terms, kind);
      assert r == front + hit;
      forall i | 0 <= i < |r|
        ensures r[i].entity == kind && r[i].value in terms
        ensures r[i].start == IndexOf(text, r[i].value) && OccursAt(text, r[i].value, r[i].start)
        ensures r[i].end == r[i].start + |r[i].value|
      {
        if i < |front| {
          assert r[i] == front[i] && front[i].value in init;
        } else {
          assert r[i] == hit[0];
        }
      }
    }
  }

  lemma {:induction false} TermEntitiesCompleteSpec(text: string, terms: seq<string>, kind: EntityType)
    ensures TermEntitiesComplete(text, terms, TermEntities(text, terms, kind))
    decreases |terms|
  {
    if terms != [] {
      var init := terms[..|terms| - 1];
      var last := terms[|terms| - 1];
      TermEntitiesCompleteSpec(text, init, kind);
      var front := TermEntities(text, init, kind);
      var r := TermEntities(text, terms, kind);
      assert r == front + TermHit(text, last, kind);
      forall t | t in terms && Includes(text, t)
        ensures exists i :: 0 <= i < |r| && r[i].value == t
      {
        if t == last {
          assert r[|front|].value == t;
        } else {
          assert t in init by {
            var k :| 0 <= k < |terms| && terms[k] == t;
            assert init[k] == t;
          }
          var i :| 0 <= i < |front| && front[i].value == t;
          assert r[i] == front[i];
        }
      }
    }
  }

  lemma TermEntitiesSpec(text: string, terms: seq<string>, kind: EntityType)
    ensures TermEntitiesOk(text, terms, kind, TermEntities(text, terms, kind))
  {
    TermEntitiesSoundSpec(text, terms, kind);
    TermEntitiesCompleteSpec(text, terms, kind);
  }

  /** `es.some(e => e.entity === kind)`. */
  predicate HasKind(es: seq<Entity>, kind: EntityType)
  {
    exists i :: 0 <= i < |es| && es[i].entity == kind
  }

  function ProductHits(lowered: string): seq<Entity>
  {
    TermEntities(lowered, CommonProducts, ProductEntity) + TermEntities(lowered, ProductModels, ProductEntity)
  }

  /** Everything pushed before the bare-number check. */
  function BeforeBare(message: string): seq<Entity>
  {
    ProductHits(Lower(message)) + Matches(SkuRule, message, 0) + Matches(QtyRule, message, 0)
  }

  /** The bare numbers, when nothing pushed so far is a quantity. */
  function BareHits(message: string): seq<Entity>
  {
    if HasKind(BeforeBare(message), QuantityEntity) then [] else Matches(BareRule, message, 0)
  }

  /** The whole result of `extractEntities(message)`: products (common
      names, then models), SKUs, quantities, order numbers and categories,
      in that order, each entity within the message. */
  function Extraction(message: string): (r: seq<Entity>)
    ensures StagesInOrder(r)
    ensures WithinMessage(message, r)
  {
    PartsInStageOrder(message);
    PartsWithinMessage(message);
    BeforeBare(message) + BareHits(message) + Matches(OrderRule, message, 0)
    + TermEntities(Lower(message), Categories, CategoryEntity)
  }

  lemma TermEntitiesStep(text: string, terms: seq<string>, k: nat, kind: EntityType)
    requires k < |terms|
    ensures TermEntities(text, terms[..k + 1], kind) == TermEntities(text, terms[..k], kind) + TermHit(text, terms[k], kind)
  {
    var t := terms[..k + 1];
    assert t[..|t| - 1] == terms[..k] && t[|t| - 1] == terms[k];
  }

  /** One `terms.forEach(...)` loop, pushing onto `entities`. */
  method PushTerms(entities: seq<Entity>, text: string, terms: seq<string>, kind: EntityType)
    returns (r: seq<Entity>)
    ensures r == entities + TermEntities(text, terms, kind)
  {
    r := entities;
    for k := 0 to |terms|
      invariant r == entities + TermEntities(text, terms[..k], kind)
    {
      TermEntitiesStep(text, terms, k, kind);
      r := PushTerm(r, text, terms[k], kind);
    }
    assert terms[..|terms|] == terms;
  }

  /** The body of the `forEach`: push the term at its first occurrence,
      if it occurs. */
  method PushTerm(entities: seq<Entity>, text: string, term: string, kind: EntityType) returns (r: seq<Entity>)
    ensures r == entities + TermHit(text, term, kind)
  {
    var index := IndexOf(text, term);
    r := entities;
    if index >= 0 {
      r := r + [Entity(kind, term, index, index + |term|)];
    }
  }

  /** One `while ((m = regex.exec(message)) !== null)` loop, pushing onto
      `entities`; `exec` resumes from the end of the previous match. */
  method PushMatches(entities: seq<Entity>, rule: Rule, message: string) returns (r: seq<Entity>)
    ensures r == entities + Matches(rule, message, 0)
  {
    r := entities;
    var lastIndex := 0;
    var m := Exec(rule, message, lastIndex);
    while m.Some?
      invariant lastIndex <= |message|
      invariant m == Exec(rule, message, lastIndex)
      invariant r + Matches(rule, message, lastIndex) == entities + Matches(rule, message, 0)
      decreases |message| - lastIndex
    {
      PushStep(entities, r, rule, message, lastIndex);
      r := r + [m.value];
      lastIndex := m.value.end;
      m := Exec(rule, message, lastIndex);
    }
    MatchesDone(rule, message, lastIndex);
  }

  /** One turn of the loop keeps its invariant. */
  lemma PushStep(entities: seq<Entity>, r: seq<Entity>, rule: Rule, message: string, lastIndex: nat)
    requires lastIndex <= |message| && Exec(rule, message, lastIndex).Some?
    requires r + Matches(rule, message, lastIndex) == entities + Matches(rule, message, 0)
    ensures var e := Exec(rule, message, lastIndex).value;
            lastIndex < e.end <= |message| && (r + [e]) + Matches(rule, message, e.end) == entities + Matches(rule, message, 0)
  {
    var e := Exec(rule, message, lastIndex).value;
    MatchesStep(rule, message, lastIndex);
    assert r + ([e] + Matches(rule, message, e.end)) == (r + [e]) + Matches(rule, message, e.end);
  }

  /** An `exec` that fails ends the matches. */
  lemma MatchesDone(rule: Rule, message: string, lastIndex: nat)
    requires lastIndex <= |message| && Exec(rule, message, lastIndex).None?
    ensures Matches(rule, message, lastIndex) == []
  {
  }

  /** One `exec` that finds a match: it is the first of the matches from
      `lastIndex`, and the rest resume at its end, further on. */
  lemma MatchesStep(rule: Rule, message: string, lastIndex: nat)
    requires lastIndex <= |message| && Exec(rule, message, lastIndex).Some?
    ensures var e := Exec(rule, message, lastIndex).value;
            lastIndex < e.end <= |message| && Matches(rule, message, lastIndex) == [e] + Matches(rule, message, e.end)
  {
  }

  /** `extractEntities`. */
  method ExtractEntities(message: string) returns (entities: seq<Entity>)
    ensures entities == Extraction(message)
  {
    var normalizedMessage := Lower(message);
    entities := PushTerms([], normalizedMessage, CommonProducts, ProductEntity);
    entities := PushTerms(entities, normalizedMessage, ProductModels, ProductEntity);
    assert entities == ProductHits(normalizedMessage);
    entities := PushMatches(entities, SkuRule, message);
    entities := PushMatches(entities, QtyRule, message);
    assert entities == BeforeBare(message);
    if !HasKind(entities, QuantityEntity) {
      entities := PushMatches(entities, BareRule, message);
    }
    assert entities == BeforeBare(message) + BareHits(message);
    entities := PushMatches(entities, OrderRule, message);
    entities := PushTerms(entities, normalizedMessage, Categories, CategoryEntity);
  }

  // ----- Properties of the result -----

  /** The entities of one type, in order. */
  function OfKind(es: seq<Entity>, kind: EntityType): (r: seq<Entity>)
    ensures |r| <= |es|
    ensures forall i :: 0 <= i < |r| ==> r[i].entity == kind && r[i] in es
    ensures r == [] <==> !HasKind(es, kind)
  {
    if es == [] then []
    else
      var init := OfKind(es[..|es| - 1], kind);
      var r := if es[|es| - 1].entity == kind then init + [es[|es| - 1]] else init;
      assert HasKind(es, kind) <==> HasKind(es[..|es| - 1], kind) || es[|es| - 1].entity == kind by {
        if es[|es| - 1].entity != kind {
          forall i | 0 <= i < |es| - 1 ensures es[i] == es[..|es| - 1][i] { }
        }
      }
      r
  }

  lemma {:induction false} OfKindAppend(a: seq<Entity>, b: seq<Entity>, kind: EntityType)
    ensures OfKind(a + b, kind) == OfKind(a, kind) + OfKind(b, kind)
    decreases |b|
  {
    if b == [] {
      assert a + b == a;
    } else {
      assert (a + b)[..|a + b| - 1] == a + b[..|b| - 1];
      OfKindAppend(a, b[..|b| - 1], kind);
    }
  }

  /** A sequence all of whose entities have the given type is its own
      filter. */
  lemma {:induction false} OfKindAll(es: seq<Entity>, kind: EntityType)
    requires forall i :: 0 <= i < |es| ==> es[i].entity == kind
    ensures OfKind(es, kind) == es
    decreases |es|
  {
    if es != [] {
      OfKindAll(es[..|es| - 1], kind);
    }
  }

  lemma {:induction false} OfKindNone(es: seq<Entity>, kind: EntityType)
    requires forall i :: 0 <= i < |es| ==> es[i].entity != kind
    ensures OfKind(es, kind) == []
  {
  }

  lemma OfKindOtherStage(es: seq<Entity>, n: nat, kind: EntityType)
    requires AllAtStage(es, n) && Stage(kind) != n
    ensures OfKind(es, kind) == []
  {
    OfKindNone(es, kind);
  }

  /** Only the unit-qualified pass and the bare pass push quantities. */
  lemma NoOtherQuantities(message: string)
    ensures OfKind(ProductHits(Lower(message)), QuantityEntity) == []
    ensures OfKind(Matches(SkuRule, message, 0), QuantityEntity) == []
    ensures OfKind(Matches(OrderRule, message, 0), QuantityEntity) == []
    ensures OfKind(TermEntities(Lower(message), Categories, CategoryEntity), QuantityEntity) == []
  {
    var l := Lower(message);
    TermsNoQuantities(l, CommonProducts, ProductModels, ProductEntity);
    RuleNoQuantities(SkuRule, message);
    RuleNoQuantities(OrderRule, message);
    TermsNoQuantities(l, Categories, [], CategoryEntity);
    assert TermEntities(l, [], CategoryEntity) == [];
    assert TermEntities(l, Categories, CategoryEntity) + [] == TermEntities(l, Categories, CategoryEntity);
  }

  /** Two vocabulary loops of a type other than quantity push no
      quantity. */
  lemma TermsNoQuantities(text: string, a: seq<string>, b: seq<string>, kind: EntityType)
    requires kind != QuantityEntity
    ensures OfKind(TermEntities(text, a, kind) + TermEntities(text, b, kind), QuantityEntity) == []
  {
    TermStages(text, a, kind);
    TermStages(text, b, kind);
    var n := Stage(kind);
    assert AllAtStage(TermEntities(text, a, kind) + TermEntities(text, b, kind), n);
    OfKindOtherStage(TermEntities(text, a, kind) + TermEntities(text, b, kind), n, QuantityEntity);
  }

  /** The SKU and order-number passes push no quantity. */
  lemma RuleNoQuantities(rule: Rule, message: string)
    requires rule == SkuRule || rule == OrderRule
    ensures OfKind(Matches(rule, message, 0), QuantityEntity) == []
  {
    RuleStage(rule, message);
    OfKindOtherStage(Matches(rule, message, 0), if rule == SkuRule then 1 else 3, QuantityEntity);
  }

  lemma QuantitiesAreQuantities(rule: Rule, message: string)
    requires rule == QtyRule || rule == BareRule
    ensures OfKind(Matches(rule, message, 0), QuantityEntity) == Matches(rule, message, 0)
  {
    var q := Matches(rule, message, 0);
    forall i | 0 <= i < |q| ensures q[i].entity == QuantityEntity {
      assert RuleAt(rule, message, q[i].start) == Some(q[i]);
    }
    OfKindAll(q, QuantityEntity);
  }

  /** Before the bare pass, the quantities are the unit-qualified ones. */
  lemma QuantitiesBeforeBare(message: string)
    ensures OfKind(BeforeBare(message), QuantityEntity) == Matches(QtyRule, message, 0)
  {
    var p := ProductHits(Lower(message));
    var sku := Matches(SkuRule, message, 0);
    var qty := Matches(QtyRule, message, 0);
    NoOtherQuantities(message);
    QuantitiesAreQuantities(QtyRule, message);
    OfKindAppend(p, sku, QuantityEntity);
    OfKindAppend(p + sku, qty, QuantityEntity);
  }

  /** The bare pass runs exactly when the unit-qualified pass found
      nothing. */
  lemma BareHitsWhenNoQuantity(message: string)
    ensures BareHits(message) == if Matches(QtyRule, message, 0) == [] then Matches(BareRule, message, 0) else []
  {
    QuantitiesBeforeBare(message);
  }

  /** The quantities reported are the unit-qualified ones when there is
      at least one, and otherwise every bare number. */
  lemma QuantityFallback(message: string)
    ensures OfKind(Extraction(message), QuantityEntity)
            == if Matches(QtyRule, message, 0) != [] then Matches(QtyRule, message, 0)
               else Matches(BareRule, message, 0)
  {
    var before := BeforeBare(message);
    var bare := BareHits(message);
    var ord := Matches(OrderRule, message, 0);
    var cat := TermEntities(Lower(message), Categories, CategoryEntity);
    QuantitiesBeforeBare(message);
    BareHitsWhenNoQuantity(message);
    NoOtherQuantities(message);
    QuantitiesAreQuantities(BareRule, message);
    assert OfKind(bare, QuantityEntity) == bare by {
      if bare == [] { assert OfKind(bare, QuantityEntity) == []; }
    }
    OfKindAppend(before, bare, QuantityEntity);
    OfKindAppend(before + bare, ord, QuantityEntity);
    OfKindAppend(before + bare + ord, cat, QuantityEntity);
    assert Extraction(message) == before + bare + ord + cat;
  }

  /** The position of each entity type in the pipeline. */
  function Stage(kind: EntityType): nat
  {
    match kind
    case ProductEntity => 0
    case SkuEntity => 1
    case QuantityEntity => 2
    case OrderNumberEntity => 3
    case CategoryEntity => 4
    case DateEntity => 5
    case CustomerNameEntity => 5
  }

  predicate AllAtStage(es: seq<Entity>, n: nat)
  {
    forall i :: 0 <= i < |es| ==> Stage(es[i].entity) == n
  }

  predicate StagesInOrder(es: seq<Entity>)
  {
    forall i, j :: 0 <= i < j < |es| ==> Stage(es[i].entity) <= Stage(es[j].entity)
  }

  lemma StagesAppend(a: seq<Entity>, b: seq<Entity>, n: nat)
    requires StagesInOrder(a) && (forall i :: 0 <= i < |a| ==> Stage(a[i].entity) <= n) && AllAtStage(b, n)
    ensures StagesInOrder(a + b) && forall i :: 0 <= i < |a + b| ==> Stage((a + b)[i].entity) <= n
  {
  }

  lemma TermStages(text: string, terms: seq<string>, kind: EntityType)
    ensures AllAtStage(TermEntities(text, terms, kind), Stage(kind))
  {
    TermEntitiesSpec(text, terms, kind);
  }

  lemma RuleStage(rule: Rule, message: string)
    ensures AllAtStage(Matches(rule, message, 0), match rule case SkuRule => 1 case QtyRule => 2 case BareRule => 2 case OrderRule => 3)
  {
    var r := Matches(rule, message, 0);
    forall i | 0 <= i < |r|
      ensures Stage(r[i].entity) == match rule case SkuRule => 1 case QtyRule => 2 case BareRule => 2 case OrderRule => 3
    {
      assert RuleAt(rule, message, r[i].start) == Some(r[i]);
    }
  }

  lemma BeforeBareStages(message: string)
    ensures StagesInOrder(BeforeBare(message)) && forall i :: 0 <= i < |BeforeBare(message)| ==> Stage(BeforeBare(message)[i].entity) <= 2
  {
    var l := Lower(message);
    var c := TermEntities(l, CommonProducts, ProductEntity);
    var m := TermEntities(l, ProductModels, ProductEntity);
    TermStages(l, CommonProducts, ProductEntity);
    TermStages(l, ProductModels, ProductEntity);
    RuleStage(SkuRule, message);
    RuleStage(QtyRule, message);
    StagesAppend(c, m, 0);
    StagesAppend(c + m, Matches(SkuRule, message, 0), 1);
    StagesAppend(c + m + Matches(SkuRule, message, 0), Matches(QtyRule, message, 0), 2);
  }

  lemma PartsInStageOrder(message: string)
    ensures StagesInOrder(BeforeBare(message) + BareHits(message) + Matches(OrderRule, message, 0)
                          + TermEntities(Lower(message), Categories, CategoryEntity))
  {
    var before := BeforeBare(message);
    var bare := BareHits(message);
    var ord := Matches(OrderRule, message, 0);
    var cat := TermEntities(Lower(message), Categories, CategoryEntity);
    BeforeBareStages(message);
    RuleStage(BareRule, message);
    RuleStage(OrderRule, message);
    TermStages(Lower(message), Categories, CategoryEntity);
    assert AllAtStage(bare, 2);
    LastStages(before, bare, ord, cat);
  }

  lemma LastStages(before: seq<Entity>, bare: seq<Entity>, ord: seq<Entity>, cat: seq<Entity>)
    requires StagesInOrder(before) && forall i :: 0 <= i < |before| ==> Stage(before[i].entity) <= 2
    requires AllAtStage(bare, 2) && AllAtStage(ord, 3) && AllAtStage(cat, 4)
    ensures StagesInOrder(before + bare + ord + cat)
  {
    StagesAppend(before, bare, 2);
    StagesAppend(before + bare, ord, 3);
    StagesAppend(before + bare + ord, cat, 4);
  }

  /** Every entity lies within the message. */
  predicate WithinMessage(message: string, es: seq<Entity>)
  {
    forall i :: 0 <= i < |es| ==> 0 <= es[i].start <= es[i].end <= |message|
  }

  lemma WithinAppend(message: string, a: seq<Entity>, b: seq<Entity>)
    requires WithinMessage(message, a) && WithinMessage(message, b)
    ensures WithinMessage(message, a + b)
  {
  }

  lemma TermsWithin(message: string, terms: seq<string>, kind: EntityType)
    ensures WithinMessage(message, TermEntities(Lower(message), terms, kind))
  {
    TermEntitiesSpec(Lower(message), terms, kind);
  }

  lemma MatchesWithin(rule: Rule, message: string)
    ensures WithinMessage(message, Matches(rule, message, 0))
  {
  }

  lemma PartsWithinMessage(message: string)
    ensures WithinMessage(message, BeforeBare(message) + BareHits(message) + Matches(OrderRule, message, 0)
                                   + TermEntities(Lower(message), Categories, CategoryEntity))
  {
    var l := Lower(message);
    var c := TermEntities(l, CommonProducts, ProductEntity);
    var m := TermEntities(l, ProductModels, ProductEntity);
    var sku := Matches(SkuRule, message, 0);
    var qty := Matches(QtyRule, message, 0);
    var bare := BareHits(message);
    var ord := Matches(OrderRule, message, 0);
    var cat := TermEntities(l, Categories, CategoryEntity);
    TermsWithin(message, CommonProducts, ProductEntity);
    TermsWithin(message, ProductModels, ProductEntity);
    TermsWithin(message, Categories, CategoryEntity);
    MatchesWithin(SkuRule, message);
    MatchesWithin(QtyRule, message);
    MatchesWithin(BareRule, message);
    MatchesWithin(OrderRule, message);
    assert WithinMessage(message, bare);
    WithinAppend(message, c, m);
    WithinAppend(message, c + m, sku);
    WithinAppend(message, c + m + sku, qty);
    assert c + m + sku + qty == BeforeBare(message);
    WithinAppend(message, c + m + sku + qty, bare);
    WithinAppend(message, c + m + sku + qty + bare, ord);
    WithinAppend(message, c + m + sku + qty + bare + ord, cat);
  }

  /** Taken on `toLowerCase` as JavaScript computes it, the offsets of a
      vocabulary hit can run past the message: U+0130 lowercases to two
      characters, so in "\U{0130} headphones" (12 characters) the product
      word is found at 3 to 13. */
  lemma DottedCapitalIShiftsOffsets(rest: string)
    requires rest == " headphones"
    ensures var m := ['\U{0130}'] + rest;
            var hits := TermHit(LowerWithDottedI(m), "headphones", ProductEntity);
            && |m| == 12
            && hits == [Entity(ProductEntity, "headphones", 3, 13)]
            && hits[0].end > |m|
  {
    var m := ['\U{0130}'] + rest;
    DottedCapitalILowered(rest);
    var l := LowerWithDottedI(m);
    assert l == "i\U{0307}" + rest;
    HeadphonesHit(l);
  }

  /** The product word of "i\U{0307} headphones" is found at 3 to 13. */
  lemma HeadphonesHit(l: string)
    requires l == "i\U{0307}" + " headphones"
    ensures TermHit(l, "headphones", ProductEntity) == [Entity(ProductEntity, "headphones", 3, 13)]
  {
    HeadphonesAfterDottedI(l);
  }

  /** A vocabulary entity's value is its term, the lowercased message holds
      the term at the entity's span, the span starts at the term's first
      occurrence, and a list without repeats yields at most one entity per
      term. Every term that occurs is reported. */
  lemma TermEntitiesFaithful(message: string, terms: seq<string>, kind: EntityType)
    requires Distinct(terms)
    ensures var r := TermEntities(Lower(message), terms, kind);
      && (forall i :: 0 <= i < |r| ==>
            && r[i].value in terms && 0 <= r[i].start <= r[i].end <= |message|
            && Lower(message)[r[i].start..r[i].end] == r[i].value
            && forall j :: 0 <= j < r[i].start ==> !OccursAt(Lower(message), r[i].value, j))
      && (forall i, j :: 0 <= i < j < |r| ==> r[i].value != r[j].value)
      && (forall t :: t in terms && Includes(Lower(message), t) ==> exists i :: 0 <= i < |r| && r[i].value == t)
  {
    TermEntitiesSpec(Lower(message), terms, kind);
    TermEntitiesDistinct(Lower(message), terms, kind);
  }

  /** No two entities carry the same value. */
  predicate ValuesDistinct(es: seq<Entity>)
  {
    forall i, j :: 0 <= i < j < |es| ==> es[i].value != es[j].value
  }

  lemma {:induction false} TermEntitiesDistinct(text: string, terms: seq<string>, kind: EntityType)
    requires Distinct(terms)
    ensures ValuesDistinct(TermEntities(text, terms, kind))
    decreases |terms|
  {
    if terms != [] {
      var init := terms[..|terms| - 1];
      var last := terms[|terms| - 1];
      assert Distinct(init) by {
        forall a, b | 0 <= a < b < |init| ensures init[a] != init[b] { assert init[a] == terms[a] && init[b] == terms[b]; }
      }
      assert last !in init by {
        forall a | 0 <= a < |init| ensures init[a] != last { assert init[a] == terms[a]; }
      }
      TermEntitiesDistinct(text, init, kind);
      TermEntitiesSpec(text, init, kind);
      var front := TermEntities(text, init, kind);
      var r := TermEntities(text, terms, kind);
      assert r == front + TermHit(text, last, kind);
      assert TermEntitiesOk(text, init, kind, front);
      assert ValuesDistinct(front);
      forall i, j | 0 <= i < j < |r| ensures r[i].value != r[j].value {
        assert r[i] == front[i] && front[i].value in init;
        if j >= |front| {
          assert r[j] == TermHit(text, last, kind)[j - |front|];
          assert r[j].value == last;
        } else {
          assert r[j] == front[j];
          assert front[i].value != front[j].value;
        }
      }
    }
  }

  lemma VocabulariesDistinct()
    ensures Distinct(CommonProducts) && Distinct(ProductModels) && Distinct(Categories)
  {
  }

  /** With no overlapping matches possible, every SKU-shaped word and
      every unit-qualified quantity in the message is reported, and so is
      every standalone number when there is no unit-qualified quantity. */
  lemma ExtractionComplete(message: string, p: nat)
    requires p < |message|
    ensures SkuAt(message, p).Some? ==> SkuAt(message, p).value in Extraction(message)
    ensures QtyAt(message, p).Some? ==> QtyAt(message, p).value in Extraction(message)
    ensures (Matches(QtyRule, message, 0) == [] && BareAt(message, p).Some?)
              ==> BareAt(message, p).value in Extraction(message)
  {
    SkuNoOverlap(message);
    MatchesComplete(SkuRule, message, 0);
    QtyNoOverlap(message);
    MatchesComplete(QtyRule, message, 0);
    BareNoOverlap(message);
    MatchesComplete(BareRule, message, 0);
    assert RuleAt(SkuRule, message, p) == SkuAt(message, p);
    assert RuleAt(QtyRule, message, p) == QtyAt(message, p);
    assert RuleAt(BareRule, message, p) == BareAt(message, p);
    if Matches(QtyRule, message, 0) == [] {
      QuantityFallback(message);
      if BareAt(message, p).Some? {
        assert BareAt(message, p).value in OfKind(Extraction(message), QuantityEntity);
      }
    }
  }

  // ----- formatEntities -----

  /** `formatEntities`: `entities.map(({entity, value}) => ({entity, value}))`. */
  function FormatEntities(entities: seq<Entity>): (r: seq<EntityValue>)
    ensures |r| == |entities|
    ensures forall i :: 0 <= i < |r| ==> r[i].entity == entities[i].entity.Name() && r[i].value == entities[i].value
  {
    seq(|entities|, i requires 0 <= i < |entities| => EntityValue(entities[i].entity.Name(), entities[i].value))
  }

  lemma NameInjective(a: EntityType, b: EntityType)
    ensures a.Name() == b.Name() <==> a == b
  {
  }

  /** Two entity lists format alike exactly when they agree on types and
      values position by position: nothing but `start` and `end` is
      dropped. */
  lemma FormatKeepsTypeAndValue(a: seq<Entity>, b: seq<Entity>)
    ensures FormatEntities(a) == FormatEntities(b)
            <==> |a| == |b| && forall i :: 0 <= i < |a| ==> a[i].entity == b[i].entity && a[i].value == b[i].value
  {
    var fa, fb := FormatEntities(a), FormatEntities(b);
    if |a| == |b| && forall i :: 0 <= i < |a| ==> a[i].entity == b[i].entity && a[i].value == b[i].value {
      assert forall i :: 0 <= i < |fa| ==> fa[i] == fb[i];
    }
    if fa == fb {
      forall i | 0 <= i < |a| ensures a[i].entity == b[i].entity && a[i].value == b[i].value {
        assert fa[i] == fb[i];
        NameInjective(a[i].entity, b[i].entity);
      }
    }
  }
}
