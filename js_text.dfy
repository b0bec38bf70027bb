/** The JavaScript string built-ins the application uses, over `string`,
    a sequence of Unicode scalar values (one `char` per code point, where
    JavaScript counts UTF-16 code units): case mapping of ASCII letters,
    the white-space set of `\s` and `trim`, `indexOf`/`includes`, decimal
    rendering of integers in template literals, and `parseInt`. */
module JsText {
  import opened Collections

  predicate IsDigit(c: char) { '0' <= c <= '9' }

  predicate IsAsciiLetter(c: char) { 'a' <= c <= 'z' || 'A' <= c <= 'Z' }

  /** The `\w` class (and hence `\b`) of a regular expression without the
      `u` flag. */
  predicate IsWordChar(c: char) { IsAsciiLetter(c) || IsDigit(c) || c == '_' }

  /** The characters matched by `\s` and removed by `trim`: ECMAScript's
      WhiteSpace and LineTerminator code points. */
  predicate IsSpace(c: char)
  {
    var n := c as int;
    n == 0x09 || n == 0x0A || n == 0x0B || n == 0x0C || n == 0x0D || n == 0x20
    || n == 0xA0 || n == 0x1680 || (0x2000 <= n <= 0x200A) || n == 0x2028
    || n == 0x2029 || n == 0x202F || n == 0x205F || n == 0x3000 || n == 0xFEFF
  }

  function LowerChar(c: char): (r: char)
    ensures !('A' <= r <= 'Z')
  {
    if 'A' <= c <= 'Z' then (c as int + 32) as char else c
  }

  function UpperChar(c: char): (r: char)
    ensures !('a' <= r <= 'z')
  {
    if 'a' <= c <= 'z' then (c as int - 32) as char else c
  }

  /** `toLowerCase` restricted to ASCII letters. */
  function Lower(s: string): (r: string)
    ensures |r| == |s|
    ensures forall i :: 0 <= i < |s| ==> r[i] == LowerChar(s[i])
  {
    seq(|s|, i requires 0 <= i < |s| => LowerChar(s[i]))
  }

  /** `toUpperCase` restricted to ASCII letters. */
  function Upper(s: string): (r: string)
    ensures |r| == |s|
    ensures forall i :: 0 <= i < |s| ==> r[i] == UpperChar(s[i])
  {
    seq(|s|, i requires 0 <= i < |s| => UpperChar(s[i]))
  }

  /** `toLowerCase` on ASCII letters and on U+0130 (capital I with dot
      above), the one character whose lowercase form is two characters
      long: "i" followed by U+0307 (combining dot above). */
  function LowerWithDottedI(s: string): (r: string)
    ensures |r| >= |s|
    ensures (forall i :: 0 <= i < |s| ==> s[i] != '\U{0130}') ==> r == Lower(s)
    decreases |s|
  {
    if s == [] then []
    else
      var head := if s[0] == '\U{0130}' then "i\U{0307}" else [LowerChar(s[0])];
      var tail := LowerWithDottedI(s[1..]);
      assert forall i :: 1 <= i < |s| ==> s[i] == s[1..][i - 1];
      head + tail
  }

  /** A U+0130 in front of lowercase text gains one character in the
      lowering. */
  lemma DottedCapitalILowered(rest: string)
    requires forall i :: 0 <= i < |rest| ==> 'a' <= rest[i] <= 'z' || rest[i] == ' '
    ensures LowerWithDottedI(['\U{0130}'] + rest) == "i\U{0307}" + rest
  {
    assert Lower(rest) == rest;
    LowerWithDottedIPrepend('\U{0130}', rest);
  }

  lemma LowerWithDottedIPrepend(c: char, t: string)
    ensures LowerWithDottedI([c] + t) == (if c == '\U{0130}' then "i\U{0307}" else [LowerChar(c)]) + LowerWithDottedI(t)
  {
    assert ([c] + t)[1..] == t;
  }

  /** In the lowercased text, "headphones" is first found at 3. */
  lemma HeadphonesAfterDottedI(l: string)
    requires l == "i\U{0307}" + " headphones"
    ensures IndexOf(l, "headphones") == 3
  {
    assert l[3..13] == "headphones";
    assert OccursAt(l, "headphones", 3);
    forall j | 0 <= j < 3 ensures !OccursAt(l, "headphones", j) {
      assert l[j..j + 10][0] == l[j] != 'h';
    }
  }

  lemma LowerIdempotent(s: string)
    ensures Lower(Lower(s)) == Lower(s)
  {
  }

  lemma LowerSlice(s: string, i: nat, j: nat)
    requires i <= j <= |s|
    ensures Lower(s)[i..j] == Lower(s[i..j])
  {
  }

  /** `t` occurs in `s` at offset `i`. */
  predicate OccursAt(s: string, t: string, i: int)
  {
    0 <= i && i + |t| <= |s| && s[i..i + |t|] == t
  }

  lemma OccursShift(s: string, t: string, j: int)
    requires s != [] && j >= 1
    ensures OccursAt(s, t, j) <==> OccursAt(s[1..], t, j - 1)
  {
    if j + |t| <= |s| {
      var a := s[j..j + |t|];
      var b := s[1..][j - 1..j - 1 + |t|];
      forall k | 0 <= k < |t|
        ensures a[k] == b[k]
      {
        assert a[k] == s[j + k];
        assert b[k] == s[1..][j - 1 + k] == s[j + k];
      }
      assert a == b;
    }
  }

  /** `String.prototype.indexOf`: the first offset at which `t` occurs, or
      -1. */
  function IndexOf(s: string, t: string): (r: int)
    ensures -1 <= r <= |s|
    ensures r >= 0 ==> OccursAt(s, t, r) && forall j :: 0 <= j < r ==> !OccursAt(s, t, j)
    ensures r == -1 ==> forall j :: !OccursAt(s, t, j)
    decreases |s|
  {
    if OccursAt(s, t, 0) then 0
    else if |s| == 0 then -1
    else
      var r := IndexOf(s[1..], t);
      assert forall j :: j >= 1 ==> (OccursAt(s, t, j) <==> OccursAt(s[1..], t, j - 1)) by {
        forall j | j >= 1 { OccursShift(s, t, j); }
      }
      if r == -1 then -1 else r + 1
  }

  /** `String.prototype.includes`. */
  predicate Includes(s: string, t: string)
  {
    IndexOf(s, t) >= 0
  }

  lemma {:induction false} IncludesAt(s: string, t: string, i: int)
    requires OccursAt(s, t, i)
    ensures Includes(s, t)
  {
  }

  /** A string occurs in any concatenation that has it as a part. */
  lemma IncludesPart(a: string, b: string, c: string)
    ensures Includes(a + b + c, b)
  {
    assert (a + b + c)[|a|..|a| + |b|] == b;
    IncludesAt(a + b + c, b, |a|);
  }

  /** The end of the longest run of white space from `i`: what `\s*`
      consumes. */
  function SpacesEnd(s: string, i: nat): (j: nat)
    requires i <= |s|
    ensures i <= j <= |s|
    ensures forall k :: i <= k < j ==> IsSpace(s[k])
    ensures j == |s| || !IsSpace(s[j])
    decreases |s| - i
  {
    if i < |s| && IsSpace(s[i]) then SpacesEnd(s, i + 1) else i
  }

  /** The start of the trailing run of white space before `j`. */
  function SpacesStart(s: string, j: nat): (i: nat)
    requires j <= |s|
    ensures i <= j
    ensures forall k :: i <= k < j ==> IsSpace(s[k])
    ensures i == 0 || !IsSpace(s[i - 1])
  {
    if j > 0 && IsSpace(s[j - 1]) then SpacesStart(s, j - 1) else j
  }

  /** The end of the longest run of decimal digits from `i`: what `\d+`
      consumes. */
  function DigitsEnd(s: string, i: nat): (j: nat)
    requires i <= |s|
    ensures i <= j <= |s|
    ensures forall k :: i <= k < j ==> IsDigit(s[k])
    ensures j == |s| || !IsDigit(s[j])
    decreases |s| - i
  {
    if i < |s| && IsDigit(s[i]) then DigitsEnd(s, i + 1) else i
  }

  /** `String.prototype.trim`: drops the white space at both ends. */
  function Trim(s: string): (r: string)
    ensures r == [] || (!IsSpace(r[0]) && !IsSpace(r[|r| - 1]))
    ensures exists i, j :: 0 <= i <= j <= |s| && r == s[i..j] && (forall k :: 0 <= k < i ==> IsSpace(s[k]))
                           && (forall k :: j <= k < |s| ==> IsSpace(s[k]))
  {
    var i := SpacesEnd(s, 0);
    var j := SpacesStart(s, |s|);
    if j <= i then
      assert i == |s| && s[i..i] == [];
      []
    else
      assert !IsSpace(s[i]) && s[i..j][0] == s[i];
      s[i..j]
  }

  function DigitChar(d: nat): (c: char)
    requires d < 10
    ensures IsDigit(c) && c as int - '0' as int == d
  {
    ('0' as int + d) as char
  }

  predicate AllDigits(s: string)
  {
    forall i :: 0 <= i < |s| ==> IsDigit(s[i])
  }

  /** Decimal digits of a natural number, without leading zeros. */
  function NatToString(n: nat): (r: string)
    ensures |r| >= 1 && AllDigits(r)
    ensures r[0] == '0' ==> n == 0
    decreases n
  {
    if n < 10 then [DigitChar(n)] else NatToString(n / 10) + [DigitChar(n % 10)]
  }

  /** An integer as a template literal renders it. */
  function IntToString(n: int): (r: string)
    ensures |r| >= 1
    ensures n >= 0 ==> AllDigits(r)
    ensures n < 0 ==> r[0] == '-' && AllDigits(r[1..])
  {
    if n < 0 then "-" + NatToString(-n) else NatToString(n)
  }

  /** The value of a string of decimal digits. */
  function DigitsValue(s: string): nat
    requires AllDigits(s)
  {
    if s == [] then 0 else DigitsValue(s[..|s| - 1]) * 10 + (s[|s| - 1] as int - '0' as int)
  }

  lemma {:induction false} NatToStringValue(n: nat)
    ensures DigitsValue(NatToString(n)) == n
    decreases n
  {
    if n >= 10 {
      var r := NatToString(n);
      assert r[..|r| - 1] == NatToString(n / 10);
      NatToStringValue(n / 10);
    }
  }

  predicate IsHexDigit(c: char) { IsDigit(c) || 'a' <= c <= 'f' || 'A' <= c <= 'F' }

  function HexDigitValue(c: char): nat
    requires IsHexDigit(c)
  {
    if IsDigit(c) then c as int - '0' as int
    else if 'a' <= c <= 'f' then c as int - 'a' as int + 10
    else c as int - 'A' as int + 10
  }

  /** The end of the longest run of hexadecimal digits from `i`. */
  function HexEnd(s: string, i: nat): (j: nat)
    requires i <= |s|
    ensures i <= j <= |s|
    ensures forall k :: i <= k < j ==> IsHexDigit(s[k])
    ensures j == |s| || !IsHexDigit(s[j])
    decreases |s| - i
  {
    if i < |s| && IsHexDigit(s[i]) then HexEnd(s, i + 1) else i
  }

  function HexValue(s: string): nat
    requires forall i :: 0 <= i < |s| ==> IsHexDigit(s[i])
  {
    if s == [] then 0 else HexValue(s[..|s| - 1]) * 16 + HexDigitValue(s[|s| - 1])
  }

  /** The unsigned part of `parseInt`: a `0x`/`0X` prefix selects base
      16, otherwise the longest run of decimal digits is read; `None`
      stands for NaN. */
  function ParseMagnitude(u: string): Option<nat>
  {
    if |u| >= 2 && u[0] == '0' && (u[1] == 'x' || u[1] == 'X') then
      var e := HexEnd(u, 2);
      if e == 2 then None else Some(HexValue(u[2..e]))
    else
      var e := DigitsEnd(u, 0);
      if e == 0 then None else Some(DigitsValue(u[..e]))
  }

  /** `parseInt(s)` without a radix: leading white space, an optional sign,
      then the magnitude. */
  function ParseInt(s: string): Option<int>
  {
    var i := SpacesEnd(s, 0);
    if i < |s| && s[i] == '-' then
      match ParseMagnitude(s[i + 1..])
      case Some(v) => Some(-(v as int))
      case None => None
    else if i < |s| && s[i] == '+' then
      match ParseMagnitude(s[i + 1..])
      case Some(v) => Some(v)
      case None => None
    else
      match ParseMagnitude(s[i..])
      case Some(v) => Some(v)
      case None => None
  }

  lemma {:induction false} DigitsEndAll(s: string, i: nat)
    requires i <= |s| && forall k :: i <= k < |s| ==> IsDigit(s[k])
    ensures DigitsEnd(s, i) == |s|
    decreases |s| - i
  {
    if i < |s| {
      DigitsEndAll(s, i + 1);
    }
  }

  /** A digit string reads as its value. */
  lemma ParseDigits(u: string)
    requires |u| >= 1 && AllDigits(u)
    ensures ParseMagnitude(u) == Some(DigitsValue(u))
  {
    DigitsEndAll(u, 0);
    assert u[..|u|] == u;
  }

  /** Without a sign, `parseInt` reads a digit string as its value. */
  lemma ParseUnsigned(u: string)
    requires |u| >= 1 && AllDigits(u)
    ensures ParseInt(u) == Some(DigitsValue(u))
  {
    assert IsDigit(u[0]) && !IsSpace(u[0]);
    assert SpacesEnd(u, 0) == 0;
    assert u[0..] == u;
    ParseDigits(u);
  }

  /** `parseInt` reads back every natural number's decimal digits. */
  lemma ParseNat(m: nat)
    ensures ParseInt(NatToString(m)) == Some(m)
  {
    NatToStringValue(m);
    ParseUnsigned(NatToString(m));
  }

  /** After a minus sign, a digit string reads as its value negated. */
  lemma ParseNegative(s: string)
    requires |s| >= 2 && s[0] == '-' && AllDigits(s[1..])
    ensures ParseInt(s) == Some(-(DigitsValue(s[1..]) as int))
  {
    assert !IsSpace(s[0]);
    assert SpacesEnd(s, 0) == 0;
    ParseDigits(s[1..]);
  }

  /** `parseInt` reads back every integer rendered by a template literal. */
  lemma ParseIntRoundTrip(n: int)
    ensures ParseInt(IntToString(n)) == Some(n)
  {
    if n >= 0 {
      ParseNat(n);
    } else {
      var d := NatToString(-n);
      var s := IntToString(n);
      NatToStringValue(-n);
      assert s == "-" + d && s[1..] == d;
      ParseNegative(s);
    }
  }

  /** A digit string followed by a non-digit reads as the digits' value. */
  lemma ParseDigitsThen(d: string, t: string)
    requires |d| >= 1 && AllDigits(d) && t != [] && !IsDigit(t[0]) && t[0] != 'x' && t[0] != 'X'
    ensures ParseMagnitude(d + t) == Some(DigitsValue(d))
  {
    var u := d + t;
    assert forall k :: 0 <= k < |d| ==> u[k] == d[k];
    assert u[|d|] == t[0];
    var e := DigitsEnd(u, 0);
    assert e == |d|;
    assert u[..|d|] == d;
  }

  /** Without a sign, `parseInt` reads what starts with a digit as its
      magnitude. */
  lemma ParseFromDigit(s: string)
    requires s != [] && IsDigit(s[0]) && ParseMagnitude(s).Some?
    ensures ParseInt(s) == Some(ParseMagnitude(s).value)
  {
    assert SpacesEnd(s, 0) == 0;
    assert s[0..] == s;
  }

  /** After a minus sign, `parseInt` reads the rest as a magnitude and
      negates it. */
  lemma ParseFromMinus(s: string)
    requires s != [] && s[0] == '-' && ParseMagnitude(s[1..]).Some?
    ensures ParseInt(s) == Some(-(ParseMagnitude(s[1..]).value as int))
  {
    assert SpacesEnd(s, 0) == 0;
  }

  /** `parseInt` reads the leading integer of a template literal that goes
      on with something other than a digit or an `x`, as
      `parseInt("5 minutes ago")` gives 5. */
  lemma ParseIntThen(n: int, t: string)
    requires t != [] && !IsDigit(t[0]) && t[0] != 'x' && t[0] != 'X'
    ensures ParseInt(IntToString(n) + t) == Some(n)
  {
    if n >= 0 {
      ParseNatThen(n, t);
    } else {
      var s := IntToString(n) + t;
      ParseNatThen(-n, t);
      assert s == "-" + (NatToString(-n) + t);
      assert s[1..] == NatToString(-n) + t;
      ParseFromMinus(s);
    }
  }

  /** The digits of a natural number followed by a non-digit read back as
      the number's magnitude. */
  lemma ParseNatThen(m: nat, t: string)
    requires t != [] && !IsDigit(t[0]) && t[0] != 'x' && t[0] != 'X'
    ensures ParseMagnitude(NatToString(m) + t) == Some(m)
    ensures ParseInt(NatToString(m) + t) == Some(m)
  {
    var d := NatToString(m);
    NatToStringValue(m);
    ParseDigitsThen(d, t);
    assert (d + t)[0] == d[0];
    ParseFromDigit(d + t);
  }
}
