/** The four regular expressions of the entity extractor, each written as
    the scanner its backtracking amounts to, and `exec` with the global
    flag: search from `lastIndex` for the first position where the
    expression matches, then continue from the end of that match.

    None of the expressions has the `u` flag, so `\b` and `\d` are ASCII
    and the `i` flag folds ASCII letters only. */
module EntityPatterns {
  import opened Collections
  import opened JsText
  import opened Schema

  /** A word boundary before position `p`, where `s[p]` is a word
      character. */
  predicate StartsWord(s: string, p: nat)
  {
    p == 0 || (p <= |s| && !IsWordChar(s[p - 1]))
  }

  /** A word boundary at position `e`, where `s[e - 1]` is a word
      character. */
  predicate EndsWord(s: string, e: nat)
  {
    e >= |s| || !IsWordChar(s[e])
  }

  /** The lowercase word `w` occurs at `i`, letters compared without
      regard to case. */
  predicate WordAt(s: string, i: nat, w: string)
  {
    i + |w| <= |s| && forall k :: 0 <= k < |w| ==> LowerChar(s[i + k]) == w[k]
  }

  // ----- /\b([a-z]{2}-[a-z]{3}-\d{3})\b/gi -----

  predicate SkuShape(t: string)
  {
    && |t| == 10
    && IsAsciiLetter(t[0]) && IsAsciiLetter(t[1]) && t[2] == '-'
    && IsAsciiLetter(t[3]) && IsAsciiLetter(t[4]) && IsAsciiLetter(t[5]) && t[6] == '-'
    && IsDigit(t[7]) && IsDigit(t[8]) && IsDigit(t[9])
  }

  function SkuAt(s: string, p: nat): (r: Option<Entity>)
    ensures r.Some? ==> r.value.start == p && r.value.end == p + 10 <= |s|
  {
    if p + 10 <= |s| && StartsWord(s, p) && SkuShape(s[p..p + 10]) && EndsWord(s, p + 10) then
      Some(Entity(SkuEntity, s[p..p + 10], p, p + 10))
    else
      None
  }

  // ----- /\b(\d+)\s+(pcs|pieces|units|items)\b/gi -----

  const Units: seq<string> := ["pcs", "pieces", "units", "items"]

  /** The first alternative from the `k`-th on, in order, that matches at
      `w` and is followed by a word boundary. */
  function UnitIndex(s: string, w: nat, k: nat): (r: Option<nat>)
    requires k <= |Units|
    ensures r.Some? ==> k <= r.value < |Units| && WordAt(s, w, Units[r.value]) && EndsWord(s, w + |Units[r.value]|)
    ensures r.Some? ==> forall j :: k <= j < r.value ==> !(WordAt(s, w, Units[j]) && EndsWord(s, w + |Units[j]|))
    ensures r.None? ==> forall j :: k <= j < |Units| ==> !(WordAt(s, w, Units[j]) && EndsWord(s, w + |Units[j]|))
    decreases |Units| - k
  {
    if k == |Units| then None
    else if WordAt(s, w, Units[k]) && EndsWord(s, w + |Units[k]|) then Some(k)
    else UnitIndex(s, w, k + 1)
  }

  /** Some unit word ends at `e`, after position `d`. */
  predicate UnitBefore(s: string, d: nat, e: nat)
  {
    exists i :: 0 <= i < |Units| && e - |Units[i]| > d && WordAt(s, e - |Units[i]|, Units[i])
  }

  /** `\s+` then one unit, scanned from the end `d` of the digit run:
      `\s+` cannot give back white space, since a letter must follow. The
      matched stretch holds no digit. */
  function UnitsFrom(s: string, d: nat): (r: Option<nat>)
    requires d <= |s|
    ensures r.Some? ==> d < r.value <= |s| && IsSpace(s[d]) && EndsWord(s, r.value)
    ensures r.Some? ==> UnitBefore(s, d, r.value)
    ensures r.Some? ==> forall k :: d <= k < r.value ==> !IsDigit(s[k])
  {
    var w := SpacesEnd(s, d);
    if w > d then
      match UnitIndex(s, w, 0)
      case Some(i) =>
        UnitLetters(s, w, i);
        Some(w + |Units[i]|)
      case None => None
    else None
  }

  /** `\d+` cannot give back digits (white space must follow), so the
      match is the whole digit run followed by `UnitsFrom`. */
  function QtyAt(s: string, p: nat): (r: Option<Entity>)
    ensures r.Some? ==> r.value.start == p < r.value.end <= |s|
    ensures r.Some? ==> IsDigit(s[p]) && StartsWord(s, p)
  {
    if p < |s| && IsDigit(s[p]) && StartsWord(s, p) then
      var d := DigitsEnd(s, p);
      match UnitsFrom(s, d)
      case Some(e) => Some(Entity(QuantityEntity, s[p..d], p, e))
      case None => None
    else None
  }

  // ----- /\b(\d+)\b/g -----

  /** A shorter digit run would end between two digits, where there is no
      word boundary, so only the whole run can match. */
  function BareAt(s: string, p: nat): (r: Option<Entity>)
    ensures r.Some? ==> r.value.start == p < r.value.end <= |s|
  {
    if p < |s| && IsDigit(s[p]) && StartsWord(s, p) then
      var d := DigitsEnd(s, p);
      if EndsWord(s, d) then Some(Entity(QuantityEntity, s[p..d], p, d)) else None
    else None
  }

  // ----- /\border(?:\s+number)?(?:\s*|:)\s*#?(\d+)\b/gi -----

  /** The group `(?:\s+number)?` is taken whenever it can be: if it is
      dropped the remainder starts on white space followed by a letter,
      which cannot match. `(?:\s*|:)\s*` is a run of space, or a colon and
      a run of space; `#?` takes a `#` when there is one, since a digit
      must follow. */
  /** `(?:\s+number)?`, taken when it matches. */
  function NumberEnd(s: string, q: nat): (x: nat)
    requires q <= |s|
    ensures q <= x <= |s|
    ensures x == q || (x > q + 6 && SpacesIn(s, q, x - 6) && WordAt(s, x - 6, "number"))
  {
    var w := SpacesEnd(s, q);
    if w > q && WordAt(s, w, "number") then w + 6 else q
  }

  /** The gap between `order` and the digits, scanned from `q`: the
      optional `number` group, a colon if one comes next (otherwise the
      empty run of `\s*`), white space, and a `#` if one comes next. */
  function GapEnd(s: string, q: nat): (z: nat)
    requires q <= |s|
    ensures q <= z <= |s| && OrderGap(s, q, z)
  {
    var x := NumberEnd(s, q);
    var x' := if x < |s| && s[x] == ':' then x + 1 else x;
    var y := SpacesEnd(s, x');
    var z := if y < |s| && s[y] == '#' then y + 1 else y;
    assert GapSplit(s, q, z, x, x', y);
    z
  }

  function OrderAt(s: string, p: nat): (r: Option<Entity>)
    ensures r.Some? ==> r.value.start == p < r.value.end <= |s|
  {
    if StartsWord(s, p) && WordAt(s, p, "order") then
      var z := GapEnd(s, p + 5);
      var e := DigitsEnd(s, z);
      if e > z && EndsWord(s, e) then Some(Entity(OrderNumberEntity, s[z..e], p, e)) else None
    else None
  }

  // ----- Global matching -----

  datatype Rule = SkuRule | QtyRule | BareRule | OrderRule

  /** The entity the rule's expression reports for a match starting at
      `p`, if it matches there. */
  function RuleAt(rule: Rule, s: string, p: nat): (r: Option<Entity>)
    ensures r.Some? ==> r.value.start == p < r.value.end <= |s|
  {
    match rule
    case SkuRule => SkuAt(s, p)
    case QtyRule => QtyAt(s, p)
    case BareRule => BareAt(s, p)
    case OrderRule => OrderAt(s, p)
  }

  /** `regex.exec(s)` with `lastIndex == from`: the match starting at the
      first position from `from` on where the expression matches. */
  function Exec(rule: Rule, s: string, from: nat): (r: Option<Entity>)
    requires from <= |s|
    ensures r.Some? ==> from <= r.value.start < r.value.end <= |s| && RuleAt(rule, s, r.value.start) == r
    ensures r.Some? ==> forall q :: from <= q < r.value.start ==> RuleAt(rule, s, q).None?
    ensures r.None? ==> forall q :: from <= q < |s| ==> RuleAt(rule, s, q).None?
    decreases |s| - from
  {
    if from == |s| then None
    else if RuleAt(rule, s, from).Some? then RuleAt(rule, s, from)
    else Exec(rule, s, from + 1)
  }

  /** The entities pushed by the `while (regex.exec(s))` loop started
      with `lastIndex == from`. */
  function Matches(rule: Rule, s: string, from: nat): (r: seq<Entity>)
    requires from <= |s|
    ensures forall i :: 0 <= i < |r| ==>
              from <= r[i].start < r[i].end <= |s| && RuleAt(rule, s, r[i].start) == Some(r[i])
    ensures forall i, j :: 0 <= i < j < |r| ==> r[i].end <= r[j].start
    decreases |s| - from
  {
    match Exec(rule, s, from)
    case None => []
    case Some(e) => [e] + Matches(rule, s, e.end)
  }

  /** No match of the rule starts inside another of its matches. */
  ghost predicate NoOverlap(rule: Rule, s: string)
  {
    forall p: nat, q: nat :: p < q < |s| && RuleAt(rule, s, p).Some? && q < RuleAt(rule, s, p).value.end
      ==> RuleAt(rule, s, q).None?
  }

  /** When matches cannot overlap, the loop reports every position where
      the expression matches. */
  lemma {:induction false} MatchesComplete(rule: Rule, s: string, from: nat)
    requires from <= |s| && NoOverlap(rule, s)
    ensures forall p: nat :: from <= p < |s| && RuleAt(rule, s, p).Some? ==> RuleAt(rule, s, p).value in Matches(rule, s, from)
    decreases |s| - from
  {
    match Exec(rule, s, from)
    case None =>
    case Some(e) =>
      MatchesComplete(rule, s, e.end);
      assert forall p: nat :: from <= p < e.end && p != e.start ==> RuleAt(rule, s, p).None?;
      forall p: nat | from <= p < |s| && RuleAt(rule, s, p).Some?
        ensures RuleAt(rule, s, p).value in Matches(rule, s, from)
      {
        if p >= e.end {
          assert RuleAt(rule, s, p).value in Matches(rule, s, e.end);
        }
      }
  }

  lemma SkuNoOverlap(s: string)
    ensures NoOverlap(SkuRule, s)
  {
    forall p: nat, q: nat | p < q < |s| && RuleAt(SkuRule, s, p).Some? && q < RuleAt(SkuRule, s, p).value.end
      ensures RuleAt(SkuRule, s, q).None?
    {
      var t := s[p..p + 10];
      var d := q - p;
      assert s[q] == t[d] && s[q - 1] == t[d - 1];
      if d == 3 {
        assert s[q + 2] == t[5];
      }
    }
  }

  /** Each letter of a lowercase word matched at `i` is a letter of the
      text. */
  predicate LowerLetters(w: string)
  {
    forall k :: 0 <= k < |w| ==> 'a' <= w[k] <= 'z'
  }

  lemma WordAtLetters(s: string, i: nat, w: string)
    requires WordAt(s, i, w) && LowerLetters(w)
    ensures forall k :: i <= k < i + |w| ==> IsAsciiLetter(s[k])
  {
    forall k | i <= k < i + |w|
      ensures IsAsciiLetter(s[k])
    {
      assert LowerChar(s[i + (k - i)]) == w[k - i];
    }
  }

  /** The units are lowercase words, so a unit match covers letters
      only. */
  lemma UnitLetters(s: string, w: nat, i: nat)
    requires i < |Units| && WordAt(s, w, Units[i])
    ensures |Units[i]| > 0
    ensures forall k :: w <= k < w + |Units[i]| ==> IsAsciiLetter(s[k])
  {
    assert forall j :: 0 <= j < |Units| ==> |Units[j]| > 0 && LowerLetters(Units[j]);
    WordAtLetters(s, w, Units[i]);
  }

  /** Inside a quantity match every position holds a non-digit or
      follows a digit, so no quantity match starts there. */
  lemma QtyNoOverlapAt(s: string, p: nat, q: nat)
    requires p < q < |s| && QtyAt(s, p).Some? && q < QtyAt(s, p).value.end
    ensures QtyAt(s, q).None?
  {
    var d := DigitsEnd(s, p);
    if q < d {
      assert IsDigit(s[q - 1]) && !StartsWord(s, q);
    } else {
      assert UnitsFrom(s, d).Some? && !IsDigit(s[q]);
    }
  }

  lemma QtyNoOverlap(s: string)
    ensures NoOverlap(QtyRule, s)
  {
    forall p: nat, q: nat | p < q < |s| && RuleAt(QtyRule, s, p).Some? && q < RuleAt(QtyRule, s, p).value.end
      ensures RuleAt(QtyRule, s, q).None?
    {
      QtyNoOverlapAt(s, p, q);
    }
  }

  lemma BareNoOverlap(s: string)
    ensures NoOverlap(BareRule, s)
  {
  }

  // ----- What each match looks like -----

  /** A unit-qualified quantity's value is its digit run alone, after a
      word boundary... */
  predicate QtyDigits(s: string, e: Entity)
  {
    && e.entity == QuantityEntity && 0 <= e.start && |e.value| >= 1 && e.start + |e.value| < e.end <= |s|
    && e.value == s[e.start..e.start + |e.value|] && AllDigits(e.value) && StartsWord(s, e.start)
  }

  /** ...while its end covers white space and then one unit word ending on
      a word boundary. */
  predicate QtyUnit(s: string, e: Entity)
  {
    && 0 <= e.start && e.start + |e.value| < e.end <= |s| && IsSpace(s[e.start + |e.value|])
    && EndsWord(s, e.end)
    && UnitBefore(s, e.start + |e.value|, e.end)
  }

  predicate SpacesIn(s: string, i: nat, j: nat)
    requires i <= j <= |s|
  {
    forall k :: i <= k < j ==> IsSpace(s[k])
  }

  /** The text from `q` to `z` splits at `x`, `x'` and `y` as
      `(?:\s+number)?(?:\s*|:)\s*#?` requires: optional white space and
      `number` up to `x`, white space or one colon up to `x'`, white space
      up to `y`, and an optional `#`. */
  predicate GapSplit(s: string, q: nat, z: nat, x: nat, x': nat, y: nat)
  {
    && q <= x <= x' <= y <= z <= |s|
    && (x == q || (x > q + 6 && SpacesIn(s, q, x - 6) && WordAt(s, x - 6, "number")))
    && (SpacesIn(s, x, x') || (x' == x + 1 && s[x] == ':'))
    && SpacesIn(s, x', y)
    && (z == y || (z == y + 1 && s[y] == '#'))
  }

  /** The text from `q` to `z` is in the language of that gap. */
  ghost predicate OrderGap(s: string, q: nat, z: nat)
  {
    exists x: nat, x': nat, y: nat :: GapSplit(s, q, z, x, x', y)
  }

  /** An order-number match is `order` (in any case) after a word
      boundary, a gap in the language above, and a digit run ending on a
      word boundary; the value is the digit run. */
  ghost predicate OrderShape(s: string, e: Entity)
  {
    && e.entity == OrderNumberEntity && 0 <= e.start && |e.value| >= 1 && AllDigits(e.value)
    && e.start + 5 + |e.value| <= e.end <= |s|
    && StartsWord(s, e.start) && WordAt(s, e.start, "order")
    && e.value == s[e.end - |e.value|..e.end] && EndsWord(s, e.end)
    && OrderGap(s, e.start + 5, e.end - |e.value|)
  }

  // ----- The identifiers the application itself uses -----

  /** The sample catalogue's SKUs have the shape the expression expects. */
  lemma SampleSkuMatches()
    ensures Matches(SkuRule, "WH-SWP-100", 0) == [Entity(SkuEntity, "WH-SWP-100", 0, 10)]
  {
    var s := "WH-SWP-100";
    assert s[0..10] == s;
    assert SkuShape(s);
    assert SkuAt(s, 0) == Some(Entity(SkuEntity, s, 0, 10));
    assert Exec(SkuRule, s, 0) == Some(Entity(SkuEntity, s, 0, 10));
    assert Matches(SkuRule, s, 10) == [];
  }

  /** SKUs of the shape used by the database seed script (four middle
      characters, letters in the last group) are not recognised. */
  lemma SeedSkuMissed()
    ensures Matches(SkuRule, "SAM-GA14-KE", 0) == []
  {
    var s := "SAM-GA14-KE";
    assert SkuAt(s, 0).None? by { assert s[0..10][2] == 'M'; }
    assert SkuAt(s, 1).None? by { assert !StartsWord(s, 1); }
    assert Exec(SkuRule, s, 0).None?;
  }
}
