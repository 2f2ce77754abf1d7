/**
  PHP values as the server's endpoints receive them (request arrays and `json_decode($s, true)`),
  and the conversions the validators and the board update rely on: reading an array, string
  conversion (`strlen`, `preg_match`), `is_numeric` and the numeric value loose comparison uses,
  `empty`, `trim` and single-pattern replacement (`strtr`/`str_replace`).
 */
module PhpValues {
  import opened Wrappers
  import Decimal

  /**
    A PHP value. An array keeps its keys in insertion order next to the map from key to value; a
    decoded JSON list is the array with keys "0", "1", ...
   */
  datatype Value =
    | Null
    | Bool(b: bool)
    | Int(i: int)
    | Float(f: real)
    | Str(s: string)
    | Arr(keys: seq<string>, at: map<string, Value>)

  const EmptyArray: Value := Arr([], map[])

  /** `$a[$k] = $v`: a new key goes last, an existing key keeps its place. */
  function Put(a: Value, k: string, v: Value): (r: Value)
    requires a.Arr?
    ensures r.Arr? && r.at == a.at[k := v]
    ensures k in a.at ==> r.keys == a.keys
  {
    Arr(if k in a.at then a.keys else a.keys + [k], a.at[k := v])
  }

  /** `key_exists($k, $a) ? $a[$k] : null` on an array. */
  function Read(a: Value, k: string): Value
    requires a.Arr?
  {
    if k in a.at then a.at[k] else Null
  }

  /** The values of an array, in the order `foreach` visits them. */
  function Values(a: Value): (vs: seq<Value>)
    requires a.Arr?
    ensures |vs| <= |a.keys|
    decreases |a.keys|
  {
    if |a.keys| == 0 then []
    else
      var rest := Values(Arr(a.keys[..|a.keys| - 1], a.at));
      var k := a.keys[|a.keys| - 1];
      if k in a.at then rest + [a.at[k]] else rest
  }

  /** The array `json_decode` gives for a JSON list. */
  function ListOf(items: seq<Value>): (r: Value)
    ensures r.Arr? && |r.keys| == |items|
    ensures forall i :: 0 <= i < |items| ==> r.keys[i] == Decimal.IntToString(i) && r.keys[i] in r.at
    decreases |items|
  {
    if |items| == 0 then EmptyArray
    else
      var r := ListOf(items[..|items| - 1]);
      var k := Decimal.IntToString(|items| - 1);
      Arr(r.keys + [k], r.at[k := items[|items| - 1]])
  }

  /** Each item of the list is stored under its index. */
  lemma {:induction false} ListOfAt(items: seq<Value>)
    ensures forall i :: 0 <= i < |items| ==> ListOf(items).at[Decimal.IntToString(i)] == items[i]
    decreases |items|
  {
    if |items| > 0 {
      var n := |items| - 1;
      ListOfAt(items[..n]);
      forall i | 0 <= i < n
        ensures Decimal.IntToString(i) != Decimal.IntToString(n)
      {
        if Decimal.IntToString(i) == Decimal.IntToString(n) {
          Decimal.IntToStringInjective(i, n);
        }
      }
    }
  }

  /** A list decodes to an array whose values, in order, are the list's items. */
  lemma {:induction false} ListValues(items: seq<Value>)
    ensures Values(ListOf(items)) == items
    decreases |items|
  {
    if |items| > 0 {
      var init := items[..|items| - 1];
      var r := ListOf(init);
      var a := ListOf(items);
      assert a.keys[..|a.keys| - 1] == r.keys;
      ListOfAt(items);
      ListOfAt(init);
      ListValuesAt(r.keys, r.at, a.at);
      ListValues(init);
    }
  }

  /** The values of a prefix of keys do not depend on entries stored under other keys. */
  lemma {:induction false} ListValuesAt(keys: seq<string>, m1: map<string, Value>, m2: map<string, Value>)
    requires forall k :: k in keys ==> k in m1 && k in m2 && m1[k] == m2[k]
    ensures Values(Arr(keys, m1)) == Values(Arr(keys, m2))
    decreases |keys|
  {
    if |keys| > 0 {
      ListValuesAt(keys[..|keys| - 1], m1, m2);
    }
  }

  // ---------------------------------------------------------------------------------------------
  // Conversions

  /**
    A float PHP writes as the plain digits of an integer: a whole number of fewer than 15 digits,
    which the 14 significant digits of the conversion render exactly and without an exponent.
   */
  predicate PlainFloat(f: real) {
    f == f.Floor as real && -PlainBound < f < PlainBound
  }

  /** 10^14: the first whole float PHP writes with an exponent ("1.0E+14"). */
  const PlainBound: real := 100_000_000_000_000.0

  /**
    The string PHP converts a scalar to (`strlen`, `preg_match`): "" for null and false, "1" for
    true, the decimal digits of an integer or of a whole float below 10^14 ("123456" for 123456.0).
    None for an array, where PHP 8 throws a TypeError, and for any other float, whose rendering
    (a fraction or an exponent) is not part of this model.
   */
  function Text(v: Value): (r: Option<string>)
    ensures v.Str? ==> r == Some(v.s)
    ensures v.Null? ==> r == Some("")
    ensures v.Int? ==> r == Some(Decimal.IntToString(v.i))
    ensures v.Float? && PlainFloat(v.f) ==> r == Some(Decimal.IntToString(v.f.Floor))
    ensures r.None? <==> v.Arr? || (v.Float? && !PlainFloat(v.f))
  {
    match v
    case Null => Some("")
    case Bool(b) => Some(if b then "1" else "")
    case Int(i) => Some(Decimal.IntToString(i))
    case Float(f) => if PlainFloat(f) then Some(Decimal.IntToString(f.Floor)) else None
    case Str(s) => Some(s)
    case Arr(_, _) => None
  }

  predicate AllDigits(s: string) {
    forall i :: 0 <= i < |s| ==> Decimal.IsDigit(s[i])
  }

  /** A numeral without its sign. */
  function Unsigned(s: string): string {
    if |s| > 0 && (s[0] == '+' || s[0] == '-') then s[1..] else s
  }

  /** The position of the first '.', or the length when there is none. */
  function DotAt(s: string): (d: nat)
    ensures d <= |s|
    ensures d < |s| ==> s[d] == '.'
    ensures forall i :: 0 <= i < d ==> s[i] != '.'
  {
    if |s| == 0 then 0 else if s[0] == '.' then 0 else 1 + DotAt(s[1..])
  }

  /**
    A numeric string: an optional sign, then digits with at most one decimal point and at least
    one digit.
   */
  predicate NumericString(s: string) {
    var body := Unsigned(s);
    var d := DotAt(body);
    && AllDigits(body[..d])
    && (d < |body| ==> AllDigits(body[d + 1..]))
    && (d > 0 || d + 1 < |body|)
  }

  /** is_numeric */
  predicate IsNumeric(v: Value) {
    v.Int? || v.Float? || (v.Str? && NumericString(v.s))
  }

  function Pow10(n: nat): (p: nat)
    ensures p > 0
  {
    if n == 0 then 1 else 10 * Pow10(n - 1)
  }

  /** The number a numeric value stands for, which loose comparison (`==`, `>`, `switch`) uses. */
  function NumValue(v: Value): real
    requires IsNumeric(v)
  {
    match v
    case Int(i) => i as real
    case Float(f) => f
    case Str(s) =>
      var body := Unsigned(s);
      var d := DotAt(body);
      var frac := if d < |body| then body[d + 1..] else "";
      var magnitude := Decimal.ParseNat(body[..d]) as real + Decimal.ParseNat(frac) as real / Pow10(|frac|) as real;
      if |s| > 0 && s[0] == '-' then -magnitude else magnitude
  }

  /** The decimal text of an integer is numeric and stands for that integer. */
  lemma NumericIntText(i: int)
    ensures IsNumeric(Str(Decimal.IntToString(i)))
    ensures NumValue(Str(Decimal.IntToString(i))) == i as real
  {
    var s := Decimal.IntToString(i);
    var body := Unsigned(s);
    assert body == Decimal.NatToString(if i < 0 then -i else i);
    assert DotAt(body) == |body|;
    assert body[..|body|] == body;
    Decimal.ParseNatToString(if i < 0 then -i else i);
  }

  /** `empty`: null, false, 0, 0.0, "", "0" and the empty array. */
  predicate Empty(v: Value) {
    match v
    case Null => true
    case Bool(b) => !b
    case Int(i) => i == 0
    case Float(f) => f == 0.0
    case Str(s) => s == "" || s == "0"
    case Arr(_, at) => at == map[]
  }

  // ---------------------------------------------------------------------------------------------
  // Strings

  /** The characters `trim` strips by default. */
  predicate Blank(c: char) {
    c == ' ' || c == '\t' || c == '\n' || c == '\r' || c == 0 as char || c == 0x0B as char
  }

  function TrimStart(s: string): (r: string)
    ensures |r| <= |s| && r == s[|s| - |r|..]
    ensures |r| > 0 ==> !Blank(r[0])
    ensures forall i :: 0 <= i < |s| - |r| ==> Blank(s[i])
  {
    if |s| > 0 && Blank(s[0]) then TrimStart(s[1..]) else s
  }

  function TrimEnd(s: string): (r: string)
    ensures |r| <= |s| && r == s[..|r|]
    ensures |r| > 0 ==> !Blank(r[|r| - 1])
    ensures forall i :: |r| <= i < |s| ==> Blank(s[i])
  {
    if |s| > 0 && Blank(s[|s| - 1]) then TrimEnd(s[..|s| - 1]) else s
  }

  /** `r` occurs in `s` starting at `i`. */
  predicate SliceAt(r: string, s: string, i: int) {
    0 <= i <= |s| - |r| && r == s[i..i + |r|]
  }

  /** trim: the string without blanks at either end. */
  function Trim(s: string): (r: string)
    ensures |r| > 0 ==> !Blank(r[0]) && !Blank(r[|r| - 1])
    ensures SliceAt(r, s, |s| - |TrimStart(s)|)
  {
    var t := TrimStart(s);
    var r := TrimEnd(t);
    assert r == s[|s| - |t|..|s| - |t| + |r|];
    r
  }

  /** Trimming twice trims nothing more. */
  lemma TrimIdempotent(s: string)
    ensures Trim(Trim(s)) == Trim(s)
  {
  }

  /**
    Every occurrence of `pat` replaced by `rep`, scanning left to right without overlaps: `strtr`
    with one pair, and `str_replace`.
   */
  function ReplaceAll(s: string, pat: string, rep: string): (r: string)
    requires |pat| > 0
    decreases |s|
  {
    if |s| < |pat| then s
    else if s[..|pat|] == pat then rep + ReplaceAll(s[|pat|..], pat, rep)
    else [s[0]] + ReplaceAll(s[1..], pat, rep)
  }

  /** A string without the pattern comes back unchanged. */
  lemma {:induction false} ReplaceAbsent(s: string, pat: string, rep: string)
    requires |pat| > 0
    requires forall i :: !SliceAt(pat, s, i)
    ensures ReplaceAll(s, pat, rep) == s
    decreases |s|
  {
    if |s| >= |pat| {
      assert s[0..|pat|] == s[..|pat|];
      assert !SliceAt(pat, s, 0);
      forall i
        ensures !SliceAt(pat, s[1..], i)
      {
        if 0 <= i <= |s[1..]| - |pat| {
          assert s[1..][i..i + |pat|] == s[i + 1..i + 1 + |pat|];
          assert !SliceAt(pat, s, i + 1);
        }
      }
      ReplaceAbsent(s[1..], pat, rep);
      assert [s[0]] + s[1..] == s;
    }
  }

  /** A string without the pattern's first character comes back unchanged. */
  lemma ReplaceWithoutFirst(s: string, pat: string, rep: string)
    requires |pat| > 0 && pat[0] !in s
    ensures ReplaceAll(s, pat, rep) == s
  {
    forall i
      ensures !SliceAt(pat, s, i)
    {
      if 0 <= i <= |s| - |pat| {
        assert s[i..i + |pat|][0] == s[i];
      }
    }
    ReplaceAbsent(s, pat, rep);
  }

  /** A pattern at the front is replaced and the scan goes on after it. */
  lemma ReplaceFront(pat: string, rest: string, rep: string)
    requires |pat| > 0
    ensures ReplaceAll(pat + rest, pat, rep) == rep + ReplaceAll(rest, pat, rep)
  {
    assert (pat + rest)[..|pat|] == pat;
    assert (pat + rest)[|pat|..] == rest;
  }
}
