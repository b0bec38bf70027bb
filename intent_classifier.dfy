/** The pattern-based intent classifier: each intent's score is the share
    of its trigger phrases that occur in the lowercased message; the
    strictly best intent wins, a best score below 0.1 falls back to
    `general_inquiry`, and the reported confidence is `min(0.5 + score,
    1.0)`. Scores are exact rationals. */
module IntentClassifier {
  import opened Collections
  import opened JsText
  import opened Schema

  const Greeting := "greeting"
  const InventoryCheck := "inventory_check"
  const InventoryRestock := "inventory_restock"
  const OrderStatus := "order_status"
  const OrderPlacement := "order_placement"
  const ProductInquiry := "product_inquiry"
  const ReturnsRefunds := "returns_refunds"
  const GeneralInquiry := "general_inquiry"
  const Help := "help"
  const Goodbye := "goodbye"

  /** The values of `INTENTS`, in declaration order. */
  const Intents: seq<string> := [Greeting, InventoryCheck, InventoryRestock, OrderStatus, OrderPlacement,
                                 ProductInquiry, ReturnsRefunds, GeneralInquiry, Help, Goodbye]

  /** The pattern table in the order `Object.entries` lists it, which is
      the order the ties are broken in. */
  const Patterns: seq<(string, seq<string>)> := [
    (Greeting, ["hello", "hi", "hey", "good morning", "good afternoon", "good evening", "howdy"]),
    (InventoryCheck, ["check inventory", "check stock", "do you have", "how many", "in stock", "available",
                      "check for", "stock level", "stock status"]),
    (InventoryRestock, ["restock", "when will", "back in stock", "get more", "next shipment", "restocking",
                        "replenish", "new stock", "availability date", "when can i get"]),
    (OrderStatus, ["order status", "track order", "where is my order", "shipping status", "delivery status",
                   "order #", "order number", "has my order shipped"]),
    (OrderPlacement, ["place order", "buy", "purchase", "add to cart", "checkout", "ordering", "want to order"]),
    (ProductInquiry, ["product details", "tell me about", "features", "specifications", "compare",
                      "difference between", "product information", "what is", "how does", "description"]),
    (ReturnsRefunds, ["return", "refund", "money back", "exchange", "broken", "damaged", "not working",
                      "defective"]),
    (Help, ["help", "assist", "support", "guide", "how do i", "can you help", "need assistance"]),
    (Goodbye, ["goodbye", "bye", "see you", "thanks", "thank you", "that's all", "exit", "quit"]),
    (GeneralInquiry, ["what can you do", "capabilities", "features", "ability"])
  ]

  /** `patterns.filter(p => message.includes(p)).length`. */
  function MatchCount(msg: string, phrases: seq<string>): (n: nat)
    ensures n <= |phrases|
  {
    Count(phrases, (p: string) => Includes(msg, p))
  }

  /** A phrase list's count is zero exactly when none of its phrases
      occurs. */
  lemma {:induction false} MatchCountZero(msg: string, phrases: seq<string>)
    ensures MatchCount(msg, phrases) == 0 <==> forall i :: 0 <= i < |phrases| ==> !Includes(msg, phrases[i])
  {
    if phrases != [] {
      MatchCountZero(msg, phrases[1..]);
      assert forall i :: 1 <= i < |phrases| ==> phrases[i] == phrases[1..][i - 1];
    }
  }

  /** One intent's confidence: the share of its phrases that occur, or 0
      when none does. */
  function Score(msg: string, phrases: seq<string>): (r: real)
    ensures 0.0 <= r <= 1.0
    ensures r == 0.0 <==> MatchCount(msg, phrases) == 0
    ensures MatchCount(msg, phrases) > 0 ==> r == MatchCount(msg, phrases) as real / |phrases| as real
  {
    var n := MatchCount(msg, phrases);
    if n > 0 then n as real / |phrases| as real else 0.0
  }

  /** The `for` loop from entry `k` on, with the best score and its intent
      so far: a later entry replaces them only with a strictly higher
      score. */
  function Scan(table: seq<(string, seq<string>)>, msg: string, k: nat, best: real, name: string): (string, real)
    requires k <= |table|
    decreases |table| - k
  {
    if k == |table| then (name, best)
    else
      var s := Score(msg, table[k].1);
      if s > best then Scan(table, msg, k + 1, s, table[k].0)
      else Scan(table, msg, k + 1, best, name)
  }

  /** What the loop computes: the result never drops below the starting
      score and is at least every entry's score; either nothing beat the
      start, or the result is the first entry reaching the top score. */
  lemma {:induction false} ScanSpec(table: seq<(string, seq<string>)>, msg: string, k: nat, best: real, name: string)
    requires k <= |table|
    ensures var (n, b) := Scan(table, msg, k, best, name);
      && b >= best
      && (forall j :: k <= j < |table| ==> Score(msg, table[j].1) <= b)
      && ((n == name && b == best)
          || exists i :: k <= i < |table| && table[i].0 == n && Score(msg, table[i].1) == b && b > best
                         && forall j :: k <= j < i ==> Score(msg, table[j].1) < b)
    decreases |table| - k
  {
    if k < |table| {
      var s := Score(msg, table[k].1);
      if s > best {
        ScanSpec(table, msg, k + 1, s, table[k].0);
      } else {
        ScanSpec(table, msg, k + 1, best, name);
      }
    }
  }

  /** The loop's result over a pattern table, then the low-confidence
      fallback and the final `Math.min(0.5 + score, 1.0)`. The confidence
      lies in [0.5, 1.0], and the name is the fallback or a table entry's. */
  function ClassifyWith(table: seq<(string, seq<string>)>, message: string): (r: Intent)
    ensures 0.5 <= r.confidence <= 1.0
    ensures r.name == GeneralInquiry || exists k :: 0 <= k < |table| && table[k].0 == r.name
  {
    ScanSpec(table, Lower(message), 0, 0.0, GeneralInquiry);
    ScanName(table, Lower(message), 0, 0.0, GeneralInquiry);
    var (detected, highest) := Scan(table, Lower(message), 0, 0.0, GeneralInquiry);
    var (name, confidence) := if highest < 0.1 then (GeneralInquiry, 1.0) else (detected, highest);
    Intent(name, if 0.5 + confidence < 1.0 then 0.5 + confidence else 1.0)
  }

  /** What `intentClassifier.classify` returns: one of the ten intents,
      with a confidence in [0.5, 1.0]. */
  function Classification(message: string): (r: Intent)
    ensures r.name in Intents
    ensures 0.5 <= r.confidence <= 1.0
  {
    assert forall k :: 0 <= k < |Patterns| ==> Patterns[k].0 in Intents;
    ClassifyWith(Patterns, message)
  }

  /** `IntentClassifier`: the constructor installs the pattern table. */
  class Classifier {
    const patterns: seq<(string, seq<string>)>

    constructor()
      ensures patterns == Patterns
    {
      patterns := Patterns;
    }

    /** `classify`: one pass over the table keeping the strictly best
        score, then the fallback and the cap. */
    method Classify(message: string) returns (intent: Intent)
      ensures intent == ClassifyWith(patterns, message)
    {
      var normalized := Lower(message);
      var highest := 0.0;
      var detected := GeneralInquiry;
      var k := 0;
      while k < |patterns|
        invariant 0 <= k <= |patterns|
        invariant Scan(patterns, normalized, k, highest, detected) == Scan(patterns, normalized, 0, 0.0, GeneralInquiry)
      {
        var name := patterns[k].0;
        var phrases := patterns[k].1;
        var matchCount := MatchCount(normalized, phrases);
        var confidence := if matchCount > 0 then matchCount as real / |phrases| as real else 0.0;
        if confidence > highest {
          highest := confidence;
          detected := name;
        }
        k := k + 1;
      }
      if highest < 0.1 {
        detected := GeneralInquiry;
        highest := 1.0;
      }
      intent := Intent(detected, if 0.5 + highest < 1.0 then 0.5 + highest else 1.0);
    }
  }

  /** Every phrase list holds between 1 and 10 phrases. */
  predicate RowSizesOk(table: seq<(string, seq<string>)>)
  {
    forall k :: 0 <= k < |table| ==> 1 <= |table[k].1| <= 10
  }

  lemma PatternSizes()
    ensures |Patterns| == 10 && RowSizesOk(Patterns)
  {
  }

  /** With at most 10 phrases, a single hit scores at least 0.1, so a
      score stays below 0.1 exactly when no phrase occurs. */
  lemma ScoreBelowTenth(msg: string, phrases: seq<string>)
    requires 1 <= |phrases| <= 10
    ensures Score(msg, phrases) < 0.1 <==> forall i :: 0 <= i < |phrases| ==> !Includes(msg, phrases[i])
  {
    MatchCountZero(msg, phrases);
    var n := MatchCount(msg, phrases);
    var len := |phrases|;
    if n > 0 {
      RatioAtLeastTenth(n, len);
    }
  }

  /** A share of at least one in ten or fewer is at least 0.1; split by
      the denominator so that each case is linear. */
  lemma RatioAtLeastTenth(n: nat, len: nat)
    requires 1 <= n && 1 <= len <= 10
    ensures n as real / len as real >= 0.1
  {
    var x := n as real;
    if len == 1 { assert x / 1.0 == x; }
    else if len == 2 { assert x / 2.0 == x * 0.5; }
    else if len == 3 { assert x / 3.0 >= 1.0 / 3.0; }
    else if len == 4 { assert x / 4.0 == x * 0.25; }
    else if len == 5 { assert x / 5.0 == x * 0.2; }
    else if len == 6 { assert x / 6.0 >= 1.0 / 6.0; }
    else if len == 7 { assert x / 7.0 >= 1.0 / 7.0; }
    else if len == 8 { assert x / 8.0 == x * 0.125; }
    else if len == 9 { assert x / 9.0 >= 1.0 / 9.0; }
    else { assert x / 10.0 == x * 0.1; }
  }

  /** In a table whose lists hold at most 10 phrases, the best score stays
      below 0.1 exactly when no phrase occurs at all. */
  lemma FallbackIffNoMatchIn(table: seq<(string, seq<string>)>, msg: string)
    requires RowSizesOk(table)
    ensures Scan(table, msg, 0, 0.0, GeneralInquiry).1 < 0.1
            <==> forall k, i :: 0 <= k < |table| && 0 <= i < |table[k].1| ==> !Includes(msg, table[k].1[i])
  {
    ScanSpec(table, msg, 0, 0.0, GeneralInquiry);
    forall k | 0 <= k < |table|
      ensures Score(msg, table[k].1) < 0.1 <==> forall i :: 0 <= i < |table[k].1| ==> !Includes(msg, table[k].1[i])
    {
      ScoreBelowTenth(msg, table[k].1);
    }
  }

  /** The fallback fires exactly when no phrase of any intent occurs in the
      lowercased message. */
  lemma FallbackIffNoMatch(message: string)
    ensures Scan(Patterns, Lower(message), 0, 0.0, GeneralInquiry).1 < 0.1
            <==> forall k, i :: 0 <= k < |Patterns| && 0 <= i < |Patterns[k].1| ==> !Includes(Lower(message), Patterns[k].1[i])
  {
    PatternSizes();
    FallbackIffNoMatchIn(Patterns, Lower(message));
  }

  /** A message in which no trigger phrase occurs is a general inquiry with
      confidence exactly 1.0. */
  lemma NoMatchIsGeneral(message: string)
    requires forall k, i :: 0 <= k < |Patterns| && 0 <= i < |Patterns[k].1| ==> !Includes(Lower(message), Patterns[k].1[i])
    ensures Classification(message) == Intent(GeneralInquiry, 1.0)
  {
    FallbackIffNoMatch(message);
  }

  /** Over any table, once some phrase occurs the winner is the first entry
      with the highest score, and the confidence is `min(0.5 + score,
      1.0)`. */
  lemma WinnerIsFirstBestIn(table: seq<(string, seq<string>)>, message: string, k: nat, i: nat)
    requires RowSizesOk(table)
    requires k < |table| && i < |table[k].1| && Includes(Lower(message), table[k].1[i])
    ensures var msg := Lower(message);
      exists w :: 0 <= w < |table|
        && ClassifyWith(table, message).name == table[w].0
        && (forall j :: 0 <= j < |table| ==> Score(msg, table[j].1) <= Score(msg, table[w].1))
        && (forall j :: 0 <= j < w ==> Score(msg, table[j].1) < Score(msg, table[w].1))
        && var s := Score(msg, table[w].1);
           ClassifyWith(table, message).confidence == if 0.5 + s < 1.0 then 0.5 + s else 1.0
  {
    var msg := Lower(message);
    FallbackIffNoMatchIn(table, msg);
    ScanSpec(table, msg, 0, 0.0, GeneralInquiry);
  }

  /** When some phrase occurs, the winner is the first intent in table order
      with the highest score. */
  lemma WinnerIsFirstBest(message: string, k: nat, i: nat)
    requires k < |Patterns| && i < |Patterns[k].1| && Includes(Lower(message), Patterns[k].1[i])
    ensures var msg := Lower(message);
      exists w :: 0 <= w < |Patterns|
        && Classification(message).name == Patterns[w].0
        && (forall j :: 0 <= j < |Patterns| ==> Score(msg, Patterns[j].1) <= Score(msg, Patterns[w].1))
        && (forall j :: 0 <= j < w ==> Score(msg, Patterns[j].1) < Score(msg, Patterns[w].1))
        && var s := Score(msg, Patterns[w].1);
           Classification(message).confidence == if 0.5 + s < 1.0 then 0.5 + s else 1.0
  {
    PatternSizes();
    WinnerIsFirstBestIn(Patterns, message, k, i);
  }

  /** Classification ignores letter case. */
  lemma IgnoresCase(message: string)
    ensures Classification(Lower(message)) == Classification(message)
  {
    LowerIdempotent(message);
  }

  /** The loop only ever takes names from the table or keeps its start. */
  lemma {:induction false} ScanName(table: seq<(string, seq<string>)>, msg: string, k: nat, best: real, name: string)
    requires k <= |table|
    ensures var n := Scan(table, msg, k, best, name).0;
      n == name || exists i :: k <= i < |table| && table[i].0 == n
    decreases |table| - k
  {
    if k < |table| {
      var s := Score(msg, table[k].1);
      if s > best {
        ScanName(table, msg, k + 1, s, table[k].0);
      } else {
        ScanName(table, msg, k + 1, best, name);
      }
    }
  }
}
