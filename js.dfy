/** The slice of JavaScript's value semantics that the modelled handlers rely on:
    truthiness, `||` and `??`, `Number(v)`, `String(v)`, `String.prototype.trim`,
    `toLowerCase` and the `x | 0` conversion. Numbers are restricted to their integer
    values (money and quantities are exact here), plus the three non-finite values. */
module Js {

  datatype Option<+T> = None | Some(value: T)

  datatype Result<+T, +E> = Ok(value: T) | Err(error: E)

  /** A JavaScript number: an integer value or one of the non-finite doubles. */
  datatype Number = Finite(x: int) | NaN | Infinity | NegInfinity

  /** A JavaScript value as the modelled code observes it. Objects and arrays are opaque. */
  datatype Value = Undefined | Null | Bool(b: bool) | Num(n: Number) | Str(s: string) | Obj

  /** `!!v` */
  predicate Truthy(v: Value) {
    match v
    case Undefined => false
    case Null => false
    case Bool(b) => b
    case Num(n) => !n.NaN? && n != Finite(0)
    case Str(s) => s != ""
    case Obj => true
  }

  /** `v == null`, which holds for both null and undefined. */
  predicate Nullish(v: Value) {
    v.Undefined? || v.Null?
  }

  /** `a || b` */
  function Or(a: Value, b: Value): Value {
    if Truthy(a) then a else b
  }

  /** `a ?? b` */
  function Coalesce(a: Value, b: Value): Value {
    if Nullish(a) then b else a
  }

  /** `typeof v === "string" ? v : fb` */
  function AsStr(v: Value, fb: string): string {
    if v.Str? then v.s else fb
  }

  // ---------------------------------------------------------------- characters

  predicate IsDigit(c: char) {
    '0' <= c <= '9'
  }

  predicate AllDigits(s: string) {
    forall i :: 0 <= i < |s| ==> IsDigit(s[i])
  }

  /** The characters `String.prototype.trim` removes: white space and line terminators. */
  predicate IsSpace(c: char) {
    || c == ' ' || c == '\t' || c == '\n' || c == '\r' || c == '\U{0B}' || c == '\U{0C}'
    || c == '\U{A0}' || c == '\U{FEFF}' || c == '\U{1680}' || ('\U{2000}' <= c <= '\U{200A}')
    || c == '\U{2028}' || c == '\U{2029}' || c == '\U{202F}' || c == '\U{205F}' || c == '\U{3000}'
  }

  /** The line terminators, which a regular expression's `.` does not match. */
  predicate IsLineTerminator(c: char) {
    c == '\n' || c == '\r' || c == '\U{2028}' || c == '\U{2029}'
  }

  function LowerChar(c: char): char {
    if 'A' <= c <= 'Z' then (c as int + 32) as char else c
  }

  // ---------------------------------------------------------------- strings

  /** `s.toLowerCase()` on the ASCII letters; other characters are kept. */
  function Lower(s: string): (r: string)
    ensures |r| == |s|
  {
    if s == [] then [] else [LowerChar(s[0])] + Lower(s[1..])
  }

  /** Lower-casing works character by character. */
  lemma {:induction false} LowerAt(s: string, i: int)
    requires 0 <= i < |s|
    ensures Lower(s)[i] == LowerChar(s[i])
  {
    if i > 0 {
      LowerAt(s[1..], i - 1);
    }
  }

  lemma LowerPointwise(s: string)
    ensures forall i :: 0 <= i < |s| ==> Lower(s)[i] == LowerChar(s[i])
  {
    forall i | 0 <= i < |s| ensures Lower(s)[i] == LowerChar(s[i]) {
      LowerAt(s, i);
    }
  }

  function TrimStart(s: string): string {
    if s != [] && IsSpace(s[0]) then TrimStart(s[1..]) else s
  }

  lemma {:induction false} TrimStartSpec(s: string)
    ensures var r := TrimStart(s);
            && |r| <= |s| && r == s[|s| - |r|..]
            && (r == [] || !IsSpace(r[0]))
            && (s == [] || !IsSpace(s[0]) ==> r == s)
  {
    if s != [] && IsSpace(s[0]) {
      TrimStartSpec(s[1..]);
    }
  }

  function TrimEnd(s: string): string {
    if s != [] && IsSpace(s[|s| - 1]) then TrimEnd(s[..|s| - 1]) else s
  }

  lemma {:induction false} TrimEndSpec(s: string)
    ensures var r := TrimEnd(s);
            && |r| <= |s| && r == s[..|r|]
            && (r == [] || !IsSpace(r[|r| - 1]))
            && (s == [] || !IsSpace(s[|s| - 1]) ==> r == s)
  {
    if s != [] && IsSpace(s[|s| - 1]) {
      TrimEndSpec(s[..|s| - 1]);
    }
  }

  /** No white space at either end. */
  predicate Trimmed(s: string) {
    s == [] || (!IsSpace(s[0]) && !IsSpace(s[|s| - 1]))
  }

  /** `s.trim()` */
  function Trim(s: string): (r: string)
    ensures Trimmed(r)
    ensures Trimmed(s) ==> r == s
    ensures |r| <= |s|
  {
    var a := TrimStart(s);
    TrimStartSpec(s);
    var r := TrimEnd(a);
    TrimEndSpec(a);
    assert r != [] ==> r[0] == a[0];
    r
  }

  /** A string of white space trims to the empty string. */
  lemma TrimOfBlanks(s: string)
    requires forall i :: 0 <= i < |s| ==> IsSpace(s[i])
    ensures Trim(s) == ""
  {
    TrimStartSpec(s);
  }

  /** `String(s).trim().toLowerCase()`, the canonical form several handlers compare against. */
  function Canon(s: string): string {
    Lower(Trim(s))
  }

  lemma LowerKeepsSpaces(s: string)
    ensures Trimmed(s) <==> Trimmed(Lower(s))
  {
    LowerPointwise(s);
  }

  /** No ASCII capital letter. */
  predicate NoUpper(s: string) {
    forall i :: 0 <= i < |s| ==> !('A' <= s[i] <= 'Z')
  }

  lemma LowerOfNoUpper(s: string)
    requires NoUpper(s)
    ensures Lower(s) == s
  {
    LowerPointwise(s);
  }

  /** Lower-casing leaves no capital behind. */
  lemma LowerHasNoUpper(s: string)
    ensures NoUpper(Lower(s))
  {
    LowerPointwise(s);
  }

  /** Lower-casing changes only capitals into small letters, so a result without small
      ASCII letters is the input itself. */
  lemma LowerOfLetterless(s: string, u: string)
    requires Lower(s) == u
    requires forall i :: 0 <= i < |u| ==> !('a' <= u[i] <= 'z')
    ensures s == u
  {
    LowerPointwise(s);
  }

  /** A string without capitals or edge spaces is its own canonical form. */
  lemma CanonOfPlain(s: string)
    requires NoUpper(s) && Trimmed(s)
    ensures Canon(s) == s
  {
    LowerOfNoUpper(s);
  }

  /** Lower-casing is idempotent. */
  lemma LowerIdempotent(s: string)
    ensures Lower(Lower(s)) == Lower(s)
  {
    LowerPointwise(s);
    LowerPointwise(Lower(s));
  }

  /** A canonical string is its own canonical form. */
  lemma CanonIdempotent(s: string)
    ensures Canon(Canon(s)) == Canon(s)
  {
    var t := Trim(s);
    LowerKeepsSpaces(t);
    assert Trim(Lower(t)) == Lower(t);
    LowerIdempotent(t);
  }

  // ---------------------------------------------------------------- numbers

  function DigitValue(c: char): nat
    requires IsDigit(c)
  {
    c as int - '0' as int
  }

  /** The value of a run of decimal digits. */
  function DigitsValue(s: string): nat
    requires AllDigits(s)
  {
    if s == [] then 0 else 10 * DigitsValue(s[..|s| - 1]) + DigitValue(s[|s| - 1])
  }

  function DigitChar(d: nat): char
    requires d < 10
  {
    ('0' as int + d) as char
  }

  /** The decimal numeral of a natural number, as `String(n)` writes it. */
  function NatToString(n: nat): (r: string)
    ensures r != [] && AllDigits(r)
  {
    if n < 10 then [DigitChar(n)] else NatToString(n / 10) + [DigitChar(n % 10)]
  }

  /** Reading back the numeral of `n` gives `n`. */
  lemma {:induction false} NatToStringRoundTrip(n: nat)
    ensures DigitsValue(NatToString(n)) == n
  {
    if n >= 10 {
      var s := NatToString(n);
      assert s[..|s| - 1] == NatToString(n / 10);
      NatToStringRoundTrip(n / 10);
    }
  }

  function IntToString(i: int): string {
    if i < 0 then "-" + NatToString(-i) else NatToString(i)
  }

  function NumberToString(n: Number): string {
    match n
    case Finite(x) => IntToString(x)
    case NaN => "NaN"
    case Infinity => "Infinity"
    case NegInfinity => "-Infinity"
  }

  /** `String(v)`; an array is taken as a plain object. */
  function ToStr(v: Value): string {
    match v
    case Undefined => "undefined"
    case Null => "null"
    case Bool(b) => if b then "true" else "false"
    case Num(n) => NumberToString(n)
    case Str(s) => s
    case Obj => "[object Object]"
  }

  /** `base` to the power `n`. */
  function Pow(base: nat, n: nat): (r: nat)
    requires base >= 1
    ensures r >= 1
  {
    if n == 0 then 1 else base * Pow(base, n - 1)
  }

  /** 2^1024 - 2^970, half-way between the largest finite double and 2^1024: a value at least
      this large is rounded to Infinity. */
  const OverflowBound: nat :=
    0xFFFFFFFFFFFFFC00_0000000000000000_0000000000000000_0000000000000000_0000000000000000_0000000000000000_0000000000000000_0000000000000000_0000000000000000_0000000000000000_0000000000000000_0000000000000000_0000000000000000_0000000000000000_0000000000000000_0000000000000000

  /** 2^1075, the reciprocal of half the smallest positive double: a positive value no larger
      than 2^-1075 is rounded to 0. */
  const UnderflowReciprocal: nat :=
    0x8000000000000_0000000000000000_0000000000000000_0000000000000000_0000000000000000_0000000000000000_0000000000000000_0000000000000000_0000000000000000_0000000000000000_0000000000000000_0000000000000000_0000000000000000_0000000000000000_0000000000000000_0000000000000000_0000000000000000

  /** The first position of a character of `cs` in `s`, or `|s|`. */
  function IndexOfAny(s: string, cs: set<char>): (i: nat)
    ensures i <= |s|
    ensures forall j :: 0 <= j < i ==> s[j] !in cs
    ensures i < |s| ==> s[i] in cs
  {
    if s == [] then 0 else if s[0] in cs then 0 else 1 + IndexOfAny(s[1..], cs)
  }

  /** The exponent of a decimal literal: an optional sign and at least one digit. */
  function ExponentOf(x: string): Option<int> {
    if x != [] && (x[0] == '+' || x[0] == '-') then
      if |x| > 1 && AllDigits(x[1..]) then
        Some(if x[0] == '-' then -(DigitsValue(x[1..]) as int) else DigitsValue(x[1..]))
      else None
    else if x != [] && AllDigits(x) then Some(DigitsValue(x))
    else None
  }

  /** An unsigned decimal literal — digits, an optional fraction and an optional exponent,
      with at least one digit before or after the point — as the integer `m` and the power
      of ten `e` with value `m * 10^e`. */
  function DecimalParts(t: string): Option<(nat, int)> {
    var e := IndexOfAny(t, {'e', 'E'});
    var exp := if e == |t| then Some(0) else ExponentOf(t[e + 1..]);
    var body := t[..e];
    var dot := IndexOfAny(body, {'.'});
    var ip := body[..dot];
    var fp := if dot < |body| then body[dot + 1..] else "";
    if exp.Some? && AllDigits(ip) && AllDigits(fp) && (ip != "" || fp != "") then
      Some((DigitsValue(ip + fp), exp.value - |fp|))
    else None
  }

  /** A non-negative value `m * 10^e` as a double, rounded to an integer: Infinity from the
      overflow bound on, 0 at or below the underflow bound, and a fraction rounded away from
      zero (which keeps the sign and whether the value is 0, though not the value). */
  function RoundDecimal(m: nat, e: int): (r: Number)
    ensures r.Finite? || r.Infinity?
    ensures r.Finite? ==> r.x >= 0
    ensures m == 0 ==> r == Finite(0)
  {
    if e >= 0 then
      var v := m * Pow(10, e);
      if v >= OverflowBound then Infinity else Finite(v)
    else
      var d := Pow(10, -e);
      if m == 0 || m * UnderflowReciprocal <= d then Finite(0)
      else if m >= OverflowBound * d then Infinity
      else Finite((m + d - 1) / d)
  }

  /** The digit value of `c` in base 2, 8 or 16, when it is such a digit. */
  function RadixDigit(c: char, base: nat): Option<nat> {
    var v :=
      if '0' <= c <= '9' then c as int - '0' as int
      else if 'a' <= c <= 'f' then c as int - 'a' as int + 10
      else if 'A' <= c <= 'F' then c as int - 'A' as int + 10
      else 16;
    if v < base then Some(v) else None
  }

  /** The value of a run of digits in `base`, or None when one of them is not such a digit. */
  function RadixValue(s: string, base: nat): Option<nat> {
    if s == [] then Some(0)
    else
      match (RadixValue(s[..|s| - 1], base), RadixDigit(s[|s| - 1], base))
      case (Some(v), Some(d)) => Some(base * v + d)
      case _ => None
  }

  /** The base a `0x`, `0o` or `0b` prefix announces. */
  function RadixOf(c: char): nat {
    if c == 'x' || c == 'X' then 16 else if c == 'o' || c == 'O' then 8 else if c == 'b' || c == 'B' then 2 else 0
  }

  /** An unsigned literal: Infinity, or a decimal. */
  function UnsignedNumber(t: string): Number {
    if t == "Infinity" then Infinity
    else
      match DecimalParts(t)
      case Some((m, e)) => RoundDecimal(m, e)
      case None => NaN
  }

  function Negate(n: Number): Number {
    match n
    case Finite(x) => Finite(-x)
    case Infinity => NegInfinity
    case NegInfinity => Infinity
    case NaN => NaN
  }

  /** `Number(s)` for a string, after trimming: blank is 0; `0x`, `0o` and `0b` introduce an
      unsigned integer in base 16, 8 or 2; otherwise an optional sign, then Infinity or a
      decimal literal; anything else is NaN. */
  function StringToNumber(s: string): (r: Number)
    ensures Trim(s) == "" ==> r == Finite(0)
  {
    var t := Trim(s);
    if t == "" then Finite(0)
    else if |t| > 2 && t[0] == '0' && RadixOf(t[1]) != 0 then
      match RadixValue(t[2..], RadixOf(t[1]))
      case Some(v) => if v >= OverflowBound then Infinity else Finite(v)
      case None => NaN
    else if t[0] == '+' then UnsignedNumber(t[1..])
    else if t[0] == '-' then Negate(UnsignedNumber(t[1..]))
    else UnsignedNumber(t)
  }

  /** No character of `s` is in `cs`: the search runs to the end. */
  lemma {:induction false} IndexOfAnyAbsent(s: string, cs: set<char>)
    requires forall i :: 0 <= i < |s| ==> s[i] !in cs
    ensures IndexOfAny(s, cs) == |s|
  {
    if s != [] {
      IndexOfAnyAbsent(s[1..], cs);
    }
  }

  /** A run of decimal digits reads as its value, with no scale. */
  lemma DigitsAsDecimal(t: string)
    requires t != "" && AllDigits(t)
    ensures DecimalParts(t) == Some((DigitsValue(t), 0))
  {
    forall i | 0 <= i < |t| ensures t[i] !in {'e', 'E'} && t[i] !in {'.'} {
      assert IsDigit(t[i]);
    }
    IndexOfAnyAbsent(t, {'e', 'E'});
    IndexOfAnyAbsent(t, {'.'});
    var body := t[..|t|];
    assert body == t;
    assert body[..|body|] + "" == t;
  }

  /** A trimmed run of decimal digits below the overflow bound reads as its own value. */
  lemma DigitStringToNumber(s: string)
    requires Trim(s) != "" && AllDigits(Trim(s)) && DigitsValue(Trim(s)) < OverflowBound
    ensures StringToNumber(s) == Finite(DigitsValue(Trim(s)))
  {
    var t := Trim(s);
    assert IsDigit(t[0]);
    if |t| > 2 { assert IsDigit(t[1]); }
    assert t != "Infinity" by { assert IsDigit(t[0]); }
    DigitsAsDecimal(t);
  }

  /** A fraction is finite: 12.5 is read, rounded, as 13. */
  lemma FractionIsFinite()
    ensures StringToNumber("12.5") == Finite(13)
  {
    var t := "12.5";
    assert Trim(t) == t;
    assert IndexOfAny(t, {'e', 'E'}) == 4 by {
      IndexOfAnyAbsent(t, {'e', 'E'});
    }
    assert t[..4] == t;
    assert IndexOfAny(t, {'.'}) == 2;
    assert t[..2] == "12" && t[3..] == "5";
    assert "12" + "5" == "125";
    assert "125"[..2] == "12" && "12"[..1] == "1";
    assert DigitsValue("125") == 125;
    assert DecimalParts(t) == Some((125, -1));
  }

  /** An exponent is finite: 1e3 is read as 1000. */
  lemma ExponentIsFinite()
    ensures StringToNumber("1e3") == Finite(1000)
  {
    var t := "1e3";
    assert Trim(t) == t;
    assert IndexOfAny(t, {'e', 'E'}) == 1;
    assert t[..1] == "1" && t[2..] == "3";
    assert IndexOfAny("1", {'.'}) == 1;
    assert "1"[..1] + "" == "1";
    assert DecimalParts(t) == Some((1, 3));
    assert Pow(10, 3) == 1000;
  }

  /** A hex literal is finite: 0x10 is read as 16, while a sign before it makes it NaN. */
  lemma HexIsFinite()
    ensures StringToNumber("0x10") == Finite(16)
    ensures StringToNumber("-0x10") == NaN
  {
    assert Trim("0x10") == "0x10";
    assert "0x10"[2..] == "10";
    assert "10"[..1] == "1";
    assert RadixValue("10", 16) == Some(16);
    var t := "-0x10";
    assert Trim(t) == t;
    assert t[1..] == "0x10";
    assert t[1..] != "Infinity";
    assert IndexOfAny("0x10", {'e', 'E'}) == 4 by {
      IndexOfAnyAbsent("0x10", {'e', 'E'});
    }
    assert "0x10"[..4] == "0x10";
    assert IndexOfAny("0x10", {'.'}) == 4 by {
      IndexOfAnyAbsent("0x10", {'.'});
    }
    assert !IsDigit("0x10"[1]);
    assert DecimalParts("0x10") == None;
  }

  /** `Number(v)`: null and blank text read as 0, undefined and objects as NaN, a boolean
      as 1 or 0, and a number as itself. */
  function ToNumber(v: Value): (r: Number)
    ensures v.Null? || (v.Str? && Trim(v.s) == "") ==> r == Finite(0)
    ensures v.Undefined? || v.Obj? ==> r == NaN
    ensures v.Bool? ==> r == Finite(if v.b then 1 else 0)
    ensures v.Num? ==> r == v.n
  {
    match v
    case Undefined => NaN
    case Null => Finite(0)
    case Bool(b) => Finite(if b then 1 else 0)
    case Num(n) => n
    case Str(s) => StringToNumber(s)
    case Obj => NaN
  }

  /** The finite value of a number, with NaN and both infinities read as 0 (an `isFinite`
      test with 0 as the fallback). */
  function NumberOrZero(n: Number): int {
    match n
    case Finite(x) => x
    case NaN => 0
    case Infinity => 0
    case NegInfinity => 0
  }

  const TwoTo32: int := 0x1_0000_0000
  const TwoTo31: int := 0x8000_0000

  /** `n | 0`: ECMAScript ToInt32, which maps the non-finite values to 0 and wraps the rest modulo 2^32. */
  function ToInt32(n: Number): (r: int)
    ensures -TwoTo31 <= r < TwoTo31
    ensures !n.Finite? ==> r == 0
    ensures n.Finite? ==> (r - n.x) % TwoTo32 == 0
    ensures n.Finite? && -TwoTo31 <= n.x < TwoTo31 ==> r == n.x
  {
    match n
    case Finite(x) =>
      var m := x % TwoTo32;
      if m >= TwoTo31 then m - TwoTo32 else m
    case NaN => 0
    case Infinity => 0
    case NegInfinity => 0
  }

  /** The `toNum` helper of the drink handlers and the snack model: the empty string
      and null/undefined give null, anything else `Number(v)`. */
  function ToNumOrNull(v: Value): Option<Number> {
    if v == Str("") || Nullish(v) then None else Some(ToNumber(v))
  }

  /** A possibly-null number as a JavaScript value. */
  function OptNum(o: Option<Number>): (r: Value)
    ensures ToNumOrNull(r) == o
    ensures Nullish(r) <==> o.None?
  {
    if o.Some? then Num(o.value) else Null
  }
}
