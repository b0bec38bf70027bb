/** What the matches of each entity expression look like, as text. */
module EntityShapes {
  import opened Collections
  import opened JsText
  import opened Schema
  import opened EntityPatterns

  /** Every entity the loop reports is the rule's match at its start. */
  lemma InMatches(rule: Rule, s: string, e: Entity)
    requires e in Matches(rule, s, 0)
    ensures RuleAt(rule, s, e.start) == Some(e) && e.end <= |s|
  {
    var r := Matches(rule, s, 0);
    var i :| 0 <= i < |r| && r[i] == e;
  }

  /** A SKU match is the letter-letter-dash-three letters-dash-three digits
      shape, with word boundaries on both sides, and its value is the text
      as written. */
  lemma SkuMatchShape(s: string, e: Entity)
    requires e in Matches(SkuRule, s, 0)
    ensures e.entity == SkuEntity && e.end == e.start + 10 <= |s|
    ensures e.value == s[e.start..e.end] && SkuShape(e.value)
    ensures StartsWord(s, e.start) && EndsWord(s, e.end)
  {
  }

  lemma QtyAtDigits(s: string, p: nat, e: Entity)
    requires QtyAt(s, p) == Some(e)
    ensures QtyDigits(s, e)
  {
    var d := DigitsEnd(s, p);
    assert e == Entity(QuantityEntity, s[p..d], p, UnitsFrom(s, d).value);
  }

  lemma QtyAtUnit(s: string, p: nat, e: Entity)
    requires QtyAt(s, p) == Some(e)
    ensures QtyUnit(s, e)
  {
    var d := DigitsEnd(s, p);
    assert e == Entity(QuantityEntity, s[p..d], p, UnitsFrom(s, d).value);
  }

  lemma QtyMatchShape(s: string, e: Entity)
    requires e in Matches(QtyRule, s, 0)
    ensures QtyDigits(s, e) && QtyUnit(s, e)
  {
    InMatches(QtyRule, s, e);
    QtyAtDigits(s, e.start, e);
    QtyAtUnit(s, e.start, e);
  }

  /** A bare number is a whole digit run with word boundaries on both
      sides. */
  lemma BareMatchShape(s: string, e: Entity)
    requires e in Matches(BareRule, s, 0)
    ensures e.entity == QuantityEntity && |e.value| >= 1 && AllDigits(e.value)
    ensures e.value == s[e.start..e.end] && StartsWord(s, e.start) && EndsWord(s, e.end)
  {
  }

  lemma OrderAtShape(s: string, p: nat, e: Entity)
    requires OrderAt(s, p) == Some(e)
    ensures OrderShape(s, e)
  {
    var z := GapEnd(s, p + 5);
    var end := DigitsEnd(s, z);
    assert StartsWord(s, p) && WordAt(s, p, "order") && end > z && EndsWord(s, end);
    assert e == Entity(OrderNumberEntity, s[z..end], p, end);
  }

  lemma OrderMatchShape(s: string, e: Entity)
    requires e in Matches(OrderRule, s, 0)
    ensures OrderShape(s, e)
  {
    InMatches(OrderRule, s, e);
    OrderAtShape(s, e.start, e);
  }

}
