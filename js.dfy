/**
 * The pieces of JavaScript semantics the handlers lean on: values as they arrive
 * from `request.json()` or form data, truthiness, `typeof`, property lookup,
 * `String(x)`, and the string methods `trim`, `slice`, `toLowerCase`,
 * `toUpperCase` and `parseInt`.
 */
module Js {
  import opened Wrappers

  /**
   * A JavaScript value. Numbers are integers here (no NaN, no fractions).
   * `Obj` lists its own enumerable properties in enumeration order; `ErrorObj`
   * is an instance of `Error`; `BlobObj` is a `Blob` (or `File`) of form data.
   */
  datatype Value =
    | Undefined
    | Null
    | Bool(b: bool)
    | Num(n: int)
    | Str(s: string)
    | Arr(elems: seq<Value>)
    // Keys are assumed distinct, as in every JavaScript object.
    | Obj(entries: seq<(string, Value)>)
    | ErrorObj(message: string)
    | BlobObj(size: nat)

  /** `!!v`: false exactly for undefined, null, false, 0 and "". */
  predicate Truthy(v: Value) {
    match v
    case Undefined => false
    case Null => false
    case Bool(b) => b
    case Num(n) => n != 0
    case Str(s) => s != ""
    case _ => true
  }

  /** `typeof v === 'string'` */
  predicate IsString(v: Value) {
    v.Str?
  }

  /** `typeof v === 'object'` (which holds for null too) */
  predicate IsObjectType(v: Value) {
    v.Null? || v.Arr? || v.Obj? || v.ErrorObj? || v.BlobObj?
  }

  // ---------------------------------------------------------------------------
  // Whitespace and trim

  /** The characters `String.prototype.trim` removes: WhiteSpace and LineTerminator of ECMAScript. */
  predicate IsSpace(c: char) {
    c == ' ' || c == '\t' || c == '\n' || c == '\r' || c == '\U{000B}' || c == '\U{000C}'
    || c == '\U{00A0}' || c == '\U{1680}' || ('\U{2000}' <= c <= '\U{200A}')
    || c == '\U{2028}' || c == '\U{2029}' || c == '\U{202F}' || c == '\U{205F}'
    || c == '\U{3000}' || c == '\U{FEFF}'
  }

  /** `s.trimStart()`: the longest suffix of `s` that does not start with whitespace. */
  function TrimStart(s: string): (r: string)
    ensures |r| <= |s| && r == s[|s| - |r|..]
    ensures r == [] || !IsSpace(r[0])
    ensures forall i :: 0 <= i < |s| - |r| ==> IsSpace(s[i])
  {
    if s != [] && IsSpace(s[0]) then TrimStart(s[1..]) else s
  }

  /** `s.trimEnd()`: the longest prefix of `s` that does not end with whitespace. */
  function TrimEnd(s: string): (r: string)
    ensures |r| <= |s| && r == s[..|r|]
    ensures r == [] || !IsSpace(r[|r| - 1])
    ensures forall i :: |r| <= i < |s| ==> IsSpace(s[i])
  {
    if s != [] && IsSpace(s[|s| - 1]) then TrimEnd(s[..|s| - 1]) else s
  }

  /** `s.trim()` */
  function Trim(s: string): (r: string)
    ensures |r| <= |s|
    ensures r == [] || (!IsSpace(r[0]) && !IsSpace(r[|r| - 1]))
  {
    TrimEnd(TrimStart(s))
  }

  /** `!s.trim()`: the string is empty or whitespace only. */
  predicate IsBlank(s: string) {
    Trim(s) == ""
  }

  lemma {:induction false} TrimStartAllSpace(s: string)
    ensures TrimStart(s) == [] <==> forall i :: 0 <= i < |s| ==> IsSpace(s[i])
  {
    if s != [] && IsSpace(s[0]) {
      TrimStartAllSpace(s[1..]);
      assert forall i :: 1 <= i < |s| ==> s[i] == s[1..][i - 1];
    }
  }

  /** A string is blank exactly when every character of it is whitespace. */
  lemma BlankIffAllSpace(s: string)
    ensures IsBlank(s) <==> forall i :: 0 <= i < |s| ==> IsSpace(s[i])
  {
    TrimStartAllSpace(s);
    var t := TrimStart(s);
    if t != [] {
      assert !IsSpace(t[0]);
    }
  }

  /** Trimming twice trims nothing more. */
  lemma TrimIdempotent(s: string)
    ensures Trim(Trim(s)) == Trim(s)
  {
    var r := Trim(s);
    if r != [] {
      assert TrimStart(r) == r;
      assert TrimEnd(r) == r;
    }
  }

  // ---------------------------------------------------------------------------
  // Case mapping (ASCII letters only)

  function LowerChar(c: char): char {
    if 'A' <= c <= 'Z' then (c as int + 32) as char else c
  }

  function UpperChar(c: char): char {
    if 'a' <= c <= 'z' then (c as int - 32) as char else c
  }

  /** `s.toLowerCase()`, restricted to ASCII letters. */
  function ToLower(s: string): (r: string)
    ensures |r| == |s|
    ensures forall i :: 0 <= i < |s| ==> r[i] == LowerChar(s[i])
  {
    if s == [] then [] else [LowerChar(s[0])] + ToLower(s[1..])
  }

  /** `s.toUpperCase()`, restricted to ASCII letters. */
  function ToUpper(s: string): (r: string)
    ensures |r| == |s|
    ensures forall i :: 0 <= i < |s| ==> r[i] == UpperChar(s[i])
  {
    if s == [] then [] else [UpperChar(s[0])] + ToUpper(s[1..])
  }

  /** Lower-casing is idempotent, so a key lower-cased on write matches a key lower-cased on read. */
  lemma ToLowerIdempotent(s: string)
    ensures ToLower(ToLower(s)) == ToLower(s)
  {
  }

  // ---------------------------------------------------------------------------
  // slice

  /** How `slice` turns an argument into a position: negative counts from the end, then clamp to [0, len]. */
  function RelIndex(x: int, len: nat): (r: nat)
    ensures r <= len
  {
    if x < 0 then (if len + x < 0 then 0 else len + x) else if x > len then len else x
  }

  /** `s.slice(start, end)` */
  function Slice(s: string, start: int, end: int): (r: string)
    ensures |r| <= |s|
  {
    var from, to := RelIndex(start, |s|), RelIndex(end, |s|);
    if from < to then s[from..to] else ""
  }

  /** `s.slice(start)` */
  function SliceFrom(s: string, start: int): (r: string)
    ensures |r| <= |s|
  {
    Slice(s, start, |s|)
  }

  // ---------------------------------------------------------------------------
  // Decimal digits, parseInt and String(n)

  predicate IsDigit(c: char) {
    '0' <= c <= '9'
  }

  function DigitOf(c: char): (d: nat)
    requires IsDigit(c)
    ensures d <= 9
  {
    c as int - '0' as int
  }

  function DigitsValue(s: string): (n: nat)
    requires forall i :: 0 <= i < |s| ==> IsDigit(s[i])
  {
    if s == [] then 0 else DigitsValue(s[..|s| - 1]) * 10 + DigitOf(s[|s| - 1])
  }

  /** The length of the longest all-digit prefix of `s`. */
  function DigitPrefixLength(s: string): (k: nat)
    ensures k <= |s|
    ensures forall i :: 0 <= i < k ==> IsDigit(s[i])
    ensures k == |s| || !IsDigit(s[k])
  {
    if s != [] && IsDigit(s[0]) then
      var k := 1 + DigitPrefixLength(s[1..]);
      assert forall i :: 1 <= i < k ==> s[i] == s[1..][i - 1];
      k
    else 0
  }

  /**
   * `parseInt(s)` in base 10: leading whitespace is skipped, one sign is
   * allowed, then the longest run of digits is read; no digit gives NaN (None).
   * The `0x`/`0X` prefix, which `parseInt` without a radix reads in base 16,
   * is not modelled: "0x" gives 0 here where `parseInt` gives NaN.
   */
  function ParseInt(s: string): (r: Option<int>)
  {
    var t := TrimStart(s);
    var neg := t != [] && t[0] == '-';
    var body := if t != [] && (t[0] == '-' || t[0] == '+') then t[1..] else t;
    var k := DigitPrefixLength(body);
    if k == 0 then None
    else
      var v: int := DigitsValue(body[..k]);
      Some(if neg then -v else v)
  }

  /** `10` to the power `e`. */
  function Pow10(e: nat): (r: nat)
    ensures r >= 1
  {
    if e == 0 then 1 else 10 * Pow10(e - 1)
  }

  predicate AllDigits(s: string) {
    forall i :: 0 <= i < |s| ==> IsDigit(s[i])
  }

  /** The value of `c` as a digit of a radix literal: 0-9, then a/A = 10 up to z/Z = 35. */
  function RadixDigit(c: char): Option<nat> {
    if '0' <= c <= '9' then Some(c as int - '0' as int)
    else if 'a' <= c <= 'z' then Some(c as int - 'a' as int + 10)
    else if 'A' <= c <= 'Z' then Some(c as int - 'A' as int + 10)
    else None
  }

  predicate IsRadixDigit(c: char, base: nat) {
    RadixDigit(c).Some? && RadixDigit(c).value < base
  }

  /** The base named by the letter after a leading `0`: `0x` hexadecimal, `0o` octal, `0b` binary. */
  function RadixOf(c: char): Option<nat> {
    if c == 'x' || c == 'X' then Some(16)
    else if c == 'o' || c == 'O' then Some(8)
    else if c == 'b' || c == 'B' then Some(2)
    else None
  }

  function RadixValue(s: string, base: nat): int
    requires forall i :: 0 <= i < |s| ==> IsRadixDigit(s[i], base)
  {
    if s == [] then 0
    else
      var init, last := s[..|s| - 1], s[|s| - 1];
      assert forall i :: 0 <= i < |init| ==> init[i] == s[i];
      assert IsRadixDigit(last, base);
      RadixValue(init, base) * base + RadixDigit(last).value
  }

  /** The exponent part of a decimal literal: `e` or `E`, an optional sign and digits; nothing means 0. */
  function Exponent(s: string): Option<int> {
    if s == [] then Some(0)
    else if s[0] != 'e' && s[0] != 'E' then None
    else
      var t := s[1..];
      var neg := t != [] && t[0] == '-';
      var ds := if t != [] && (t[0] == '-' || t[0] == '+') then t[1..] else t;
      if ds != [] && AllDigits(ds) then
        var v: int := DigitsValue(ds);
        Some(if neg then -v else v)
      else None
  }

  /**
   * Splits an unsigned decimal literal into its digits with the point left out,
   * the number of digits after the point, and whatever follows them.
   */
  function SplitMantissa(s: string): (r: (string, nat, string))
    ensures AllDigits(r.0)
    ensures r.1 <= |r.0|
  {
    var k := DigitPrefixLength(s);
    var rest := s[k..];
    if rest != [] && rest[0] == '.' then
      var after := rest[1..];
      var k2 := DigitPrefixLength(after);
      var digits := s[..k] + after[..k2];
      assert forall i :: 0 <= i < |digits| ==> IsDigit(digits[i]) by {
        forall i | 0 <= i < |digits| ensures IsDigit(digits[i]) {
          if i >= k { assert digits[i] == after[i - k]; }
        }
      }
      (digits, k2, after[k2..])
    else (s[..k], 0, rest)
  }

  /**
   * An unsigned decimal literal: digits, an optional fraction after `.`, an
   * optional exponent, with at least one digit before the exponent. Its value
   * when that value is an integer; None otherwise.
   */
  function DecimalLiteral(s: string): Option<int> {
    var (digits, scale, tail) := SplitMantissa(s);
    if digits == [] then None
    else
      match Exponent(tail)
      case None => None
      case Some(x) =>
        var m := DigitsValue(digits);
        var e := x - scale;
        if e >= 0 then Some(m * Pow10(e))
        else if m % Pow10(-e) == 0 then Some(m / Pow10(-e))
        else None
  }

  /**
   * `Number(s)` for a string: surrounding whitespace is ignored, a blank string
   * is 0, `0x`/`0o`/`0b` literals are read in their base, and otherwise an
   * optionally signed decimal literal with fraction and exponent is read.
   * Anything else is NaN (None), and so is a value that is not an integer.
   */
  function StringToNumber(s: string): Option<int> {
    var t := Trim(s);
    if t == [] then Some(0)
    else if IsRadixPrefixed(t) then RadixLiteral(t)
    else SignedDecimal(t)
  }

  /** `0x`, `0o` or `0b` followed by at least one more character. */
  predicate IsRadixPrefixed(t: string) {
    |t| > 2 && t[0] == '0' && RadixOf(t[1]).Some?
  }

  /** A `0x`/`0o`/`0b` literal: every character after the prefix must be a digit of that base. */
  function RadixLiteral(t: string): Option<int>
    requires IsRadixPrefixed(t)
  {
    var base := RadixOf(t[1]).value;
    var ds := t[2..];
    if forall i :: 0 <= i < |ds| ==> IsRadixDigit(ds[i], base) then Some(RadixValue(ds, base)) else None
  }

  /** A decimal literal with an optional leading `-` or `+`. */
  function SignedDecimal(t: string): Option<int>
    requires t != []
  {
    var neg := t[0] == '-';
    var body := if t[0] == '-' || t[0] == '+' then t[1..] else t;
    match DecimalLiteral(body)
    case None => None
    case Some(m) => Some(if neg then -m else m)
  }


  /**
   * `Number(v)` as `-` applies it: integers as they are, booleans as 0 or 1,
   * null as 0, a string by `StringToNumber`, and an array by the string it
   * joins to (so `[]` is 0 and `[2]` is 2). Undefined, objects, errors and blobs
   * are NaN (None).
   */
  function ToNumber(v: Value): Option<int> {
    match v
    case Num(n) => Some(n)
    case Bool(b) => Some(if b then 1 else 0)
    case Null => Some(0)
    case Str(s) => StringToNumber(s)
    case Arr(_) => StringToNumber(ToDisplayString(v))
    case _ => None
  }

  /** A string with no whitespace at either end is its own trim. */
  lemma TrimUnspaced(s: string)
    requires s != [] && !IsSpace(s[0]) && !IsSpace(s[|s| - 1])
    ensures Trim(s) == s
  {
    assert TrimStart(s) == s;
  }

  /** Digits with no point and no exponent are a decimal literal worth their decimal value. */
  lemma DigitsDecimal(s: string)
    requires s != [] && AllDigits(s)
    ensures DecimalLiteral(s) == Some(DigitsValue(s))
  {
    assert DigitPrefixLength(s) == |s|;
    assert s[..|s|] == s && s[|s|..] == [];
    assert SplitMantissa(s) == (s, 0, []);
  }

  /** A string that starts with a digit and has no radix prefix or trailing space is read as a decimal literal. */
  lemma UnprefixedDecimal(t: string)
    requires t != [] && IsDigit(t[0]) && !IsSpace(t[|t| - 1])
    requires |t| > 1 ==> RadixOf(t[1]).None?
    ensures StringToNumber(t) == DecimalLiteral(t)
  {
    TrimUnspaced(t);
  }

  /** A string of digits alone reads as its decimal value. */
  lemma DigitStringNumber(s: string)
    requires s != [] && AllDigits(s)
    ensures StringToNumber(s) == Some(DigitsValue(s))
  {
    assert IsDigit(s[0]) && IsDigit(s[|s| - 1]);
    assert StringToNumber(s) == SignedDecimal(s) by {
      TrimUnspaced(s);
      assert !IsRadixPrefixed(s) by {
        if |s| > 2 { assert IsDigit(s[1]); }
      }
    }
    assert SignedDecimal(s) == DecimalLiteral(s);
    DigitsDecimal(s);
  }



  /** Reading back the digits `NatToString` writes gives the number. */
  lemma {:induction false} DigitsOfNatToString(n: nat)
    ensures DigitsValue(NatToString(n)) == n
    decreases n
  {
    var d := [('0' as int + n % 10) as char];
    if n >= 10 {
      var r := NatToString(n / 10) + d;
      assert r[..|r| - 1] == NatToString(n / 10);
      DigitsOfNatToString(n / 10);
    }
  }

  /** `Number(String(n)) == n`: an integer survives the trip through its decimal string. */
  lemma NumberOfIntString(n: int)
    ensures ToNumber(Str(IntToString(n))) == Some(n)
  {
    if n < 0 {
      var digits := NatToString(-n);
      DigitsOfNatToString(-n);
      var t := "-" + digits;
      assert IntToString(n) == t;
      assert Trim(t) == t by { TrimUnspaced(t); }
      assert !IsRadixPrefixed(t);
      assert t[1..] == digits;
      DigitsDecimal(digits);
      assert SignedDecimal(t) == Some(n);
    } else {
      DigitsOfNatToString(n);
      assert IntToString(n) == NatToString(n);
      DigitStringNumber(NatToString(n));
    }
  }

  /** An array reads as the number its joined string spells: `Number([]) == 0` and `Number([n]) == n`. */
  lemma ArrayNumber(n: int)
    ensures ToNumber(Arr([])) == Some(0)
    ensures ToNumber(Arr([Num(n)])) == Some(n)
  {
    var v := Arr([Num(n)]);
    assert ToDisplayString(v) == IntToString(n) by {
      assert ToDisplayString(v) == JoinElements(v, [Num(n)]);
      assert JoinElements(v, [Num(n)]) == ToDisplayString(Num(n));
    }
    NumberOfIntString(n);
  }
  /** The all-digit prefix of `a + rest` is `a` when `rest` does not start with a digit. */
  lemma DigitPrefixOfConcat(a: string, rest: string)
    requires AllDigits(a) && rest != [] && !IsDigit(rest[0])
    ensures DigitPrefixLength(a + rest) == |a|
  {
    var t := a + rest;
    assert forall i :: 0 <= i < |a| ==> t[i] == a[i];
    assert t[|a|] == rest[0];
  }

  /** A literal with no fraction digits and a non-negative exponent is its digits times that power of ten. */
  lemma DecimalWithoutFraction(s: string, digits: string, tail: string, x: int)
    requires SplitMantissa(s) == (digits, 0, tail) && digits != []
    requires Exponent(tail) == Some(x) && x >= 0
    ensures DecimalLiteral(s) == Some(DigitsValue(digits) * Pow10(x))
  {
  }

  /** Digits followed by something that is neither a digit nor `.` are the whole mantissa. */
  lemma SplitBeforeExponent(a: string, rest: string)
    requires AllDigits(a) && rest != [] && rest[0] == 'e'
    ensures SplitMantissa(a + rest) == (a, 0, rest)
  {
    var t := a + rest;
    DigitPrefixOfConcat(a, rest);
    assert t[..|a|] == a && t[|a|..] == rest;
  }

  /** `e` followed by digits is that exponent. */
  lemma ExponentOfDigits(b: string)
    requires b != [] && AllDigits(b)
    ensures Exponent("e" + b) == Some(DigitsValue(b))
  {
    assert ("e" + b)[1..] == b;
  }

  /** The decimal literal `a + "e" + b` is `a * 10^b`. */
  lemma ExponentDecimal(a: string, b: string)
    requires a != [] && AllDigits(a) && b != [] && AllDigits(b)
    ensures DecimalLiteral(a + "e" + b) == Some(DigitsValue(a) * Pow10(DigitsValue(b)))
  {
    var rest := "e" + b;
    assert a + "e" + b == a + rest;
    SplitBeforeExponent(a, rest);
    ExponentOfDigits(b);
    DecimalWithoutFraction(a + rest, a, rest, DigitsValue(b));
  }


  /** An exponent scales the digits before it: `Number(a + "e" + b)` is `a * 10^b`, so `Number("1e3") == 1000`. */
  lemma ExponentNumber(a: string, b: string)
    requires a != [] && AllDigits(a) && b != [] && AllDigits(b)
    ensures ToNumber(Str(a + "e" + b)) == Some(DigitsValue(a) * Pow10(DigitsValue(b)))
  {
    var t := a + "e" + b;
    assert t[0] == a[0] && t[|t| - 1] == b[|b| - 1];
    assert |t| > 1 ==> RadixOf(t[1]).None? by {
      if |a| > 1 { assert t[1] == a[1]; } else { assert t[1] == 'e'; }
    }
    UnprefixedDecimal(t);
    ExponentDecimal(a, b);
  }

  /** A `0x` literal is read in base 16: `Number("0x" + ds)` is the hexadecimal value of `ds`. */
  lemma HexNumber(ds: string)
    requires ds != [] && forall i :: 0 <= i < |ds| ==> IsRadixDigit(ds[i], 16)
    ensures ToNumber(Str("0x" + ds)) == Some(RadixValue(ds, 16))
  {
    var t := "0x" + ds;
    assert RadixDigit(ds[|ds| - 1]).Some?;
    assert t[|t| - 1] == ds[|ds| - 1];
    TrimUnspaced(t);
    assert IsRadixPrefixed(t);
    assert t[2..] == ds;
    assert RadixLiteral(t) == Some(RadixValue(ds, 16));
    assert StringToNumber(t) == RadixLiteral(t);
  }







  /** The canonical decimal form of a natural number, as `String(n)` writes it. */
  function NatToString(n: nat): (r: string)
    ensures r != [] && forall i :: 0 <= i < |r| ==> IsDigit(r[i])
    decreases n
  {
    var d := [('0' as int + n % 10) as char];
    if n < 10 then d else NatToString(n / 10) + d
  }

  /** `String(n)` for an integer. */
  function IntToString(n: int): string {
    if n < 0 then "-" + NatToString(-n) else NatToString(n)
  }

  /** The array index a property key names, if it is one ("0", "1", ... without leading zeros). */
  function CanonicalIndex(key: string): Option<nat> {
    if key != [] && (forall i :: 0 <= i < |key| ==> IsDigit(key[i])) && (key == "0" || key[0] != '0')
    then Some(DigitsValue(key))
    else None
  }

  // ---------------------------------------------------------------------------
  // Property access

  /** The value of the first entry named `key`, or undefined. */
  function Lookup(entries: seq<(string, Value)>, key: string): (v: Value)
    ensures v != Undefined ==> exists i :: 0 <= i < |entries| && entries[i] == (key, v)
  {
    if entries == [] then Undefined
    else if entries[0].0 == key then entries[0].1
    else Lookup(entries[1..], key)
  }

  /** The first entry named `key` is the one found. */
  lemma {:induction false} LookupAt(entries: seq<(string, Value)>, i: nat, key: string)
    requires i < |entries| && entries[i].0 == key
    requires forall j :: 0 <= j < i ==> entries[j].0 != key
    ensures Lookup(entries, key) == entries[i].1
  {
    if i > 0 {
      LookupAt(entries[1..], i - 1, key);
    }
  }

  /**
   * `v[key]` on an object or array. Inherited members (`toString`,
   * `constructor`, ...) are not modelled; they read as undefined here.
   */
  function Get(v: Value, key: string): Value {
    match v
    case Obj(entries) => Lookup(entries, key)
    case Arr(elems) =>
      if key == "length" then Num(|elems|)
      else (match CanonicalIndex(key)
            case Some(i) => if i < |elems| then elems[i] else Undefined
            case None => Undefined)
    case _ => Undefined
  }

  /** `Object.keys(v).length` for a value whose `typeof` is 'object' and that is not null. */
  function KeyCount(v: Value): nat {
    match v
    case Obj(entries) => |entries|
    case Arr(elems) => |elems|
    case _ => 0
  }

  /** `'key' in v` for an object (own properties; an Error always has a message). */
  predicate HasProperty(v: Value, key: string) {
    match v
    case Obj(entries) => exists i :: 0 <= i < |entries| && entries[i].0 == key
    case ErrorObj(_) => key == "message"
    case Arr(elems) => key == "length" || (CanonicalIndex(key).Some? && CanonicalIndex(key).value < |elems|)
    case _ => false
  }

  // ---------------------------------------------------------------------------
  // String(v)

  /** `String(v)`; an array is joined with commas, null and undefined elements giving "". */
  function ToDisplayString(v: Value): string
    decreases v, 1
  {
    match v
    case Undefined => "undefined"
    case Null => "null"
    case Bool(b) => if b then "true" else "false"
    case Num(n) => IntToString(n)
    case Str(s) => s
    case Arr(elems) => JoinElements(v, elems)
    case Obj(_) => "[object Object]"
    case ErrorObj(m) => if m == "" then "Error" else "Error: " + m
    case BlobObj(_) => "[object Blob]"
  }

  /** `elems.join(',')` as `Array.prototype.toString` does it. */
  function JoinElements(ghost parent: Value, elems: seq<Value>): string
    requires forall e :: e in elems ==> e < parent
    decreases parent, 0, |elems|
  {
    if elems == [] then ""
    else
      assert elems[0] in elems;
      assert forall e :: e in elems[1..] ==> e in elems;
      var first := if elems[0].Undefined? || elems[0].Null? then "" else ToDisplayString(elems[0]);
      if |elems| == 1 then first else first + "," + JoinElements(parent, elems[1..])
  }
}
