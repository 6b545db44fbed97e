/**
 The slice of JavaScript value semantics the dashboard's logic depends on:
 dynamically typed values, truthiness and `||`, property reads that yield
 `undefined` when a key is missing, `String(v)` and the partial `parseInt`.

 Numbers are integers here: NaN is never stored in a `Value`; an operation
 that can produce NaN (`parseInt`) returns an `Option<int>` whose `None`
 stands for NaN.
 */
module Js {

  datatype Option<+T> = None | Some(value: T)

  /** A JavaScript value as the dashboard code sees it. */
  datatype Value =
    | Undefined
    | Null
    | Bool(b: bool)
    | Num(n: int)
    | Str(s: string)
    | Obj(fields: map<string, Value>)
    | Arr(items: seq<Value>)

  /** A plain object used as a record: absent keys read as `undefined`. */
  type Record = map<string, Value>

  /** `r[k]` on a plain object. */
  function Get(r: Record, k: string): (v: Value)
    ensures k !in r ==> v == Undefined
    ensures k in r ==> v == r[k]
  {
    if k in r then r[k] else Undefined
  }

  /** `v?.k`: only objects have the fields this code reads. */
  function Field(v: Value, k: string): (r: Value)
    ensures !v.Obj? ==> r == Undefined
    ensures v.Obj? ==> r == Get(v.fields, k)
  {
    match v
    case Obj(m) => Get(m, k)
    case _ => Undefined
  }

  /** JavaScript truthiness: `undefined`, `null`, `false`, `0` and `""` are falsy. */
  predicate Truthy(v: Value) {
    match v
    case Undefined => false
    case Null => false
    case Bool(b) => b
    case Num(n) => n != 0
    case Str(s) => s != ""
    case Obj(_) => true
    case Arr(_) => true
  }

  /** `a || b`: the first operand when it is truthy, else the second. */
  function Or(a: Value, b: Value): (r: Value)
    ensures Truthy(a) ==> r == a
    ensures !Truthy(a) ==> r == b
    ensures Truthy(r) <==> Truthy(a) || Truthy(b)
  {
    if Truthy(a) then a else b
  }

  // ---------------------------------------------------------------------
  // Number to string

  function DigitChar(d: nat): (c: char)
    requires d < 10
  {
    ['0', '1', '2', '3', '4', '5', '6', '7', '8', '9'][d]
  }

  /** The decimal digits of a natural number, most significant first. */
  function NatToString(n: nat): (s: string)
    decreases n
  {
    if n < 10 then [DigitChar(n)] else NatToString(n / 10) + [DigitChar(n % 10)]
  }

  /** `String(n)` for an integer-valued number. */
  function IntToString(n: int): string {
    if n < 0 then "-" + NatToString(-n) else NatToString(n)
  }

  /** `String(v)`; array elements that are `null` or `undefined` print as empty. */
  function ToStr(v: Value): string
    decreases v
  {
    match v
    case Undefined => "undefined"
    case Null => "null"
    case Bool(b) => if b then "true" else "false"
    case Num(n) => IntToString(n)
    case Str(s) => s
    case Obj(_) => "[object Object]"
    case Arr(items) => JoinItems(items, v)
  }

  function JoinItems(items: seq<Value>, whole: Value): string
    requires whole.Arr? && (forall i :: 0 <= i < |items| ==> items[i] in whole.items)
    decreases whole, |items|
  {
    if |items| == 0 then ""
    else
      var last := items[|items| - 1];
      var head := JoinItems(items[..|items| - 1], whole);
      var text := if last.Undefined? || last.Null? then "" else ToStr(last);
      if |items| == 1 then text else head + "," + text
  }

  // ---------------------------------------------------------------------
  // parseInt

  /** The white-space and line-terminator characters `parseInt` skips. */
  predicate IsJsSpace(c: char) {
    || c == '\t' || c == '\n' || c == '\U{000B}' || c == '\U{000C}' || c == '\r'
    || c == ' ' || c == '\U{00A0}' || c == '\U{1680}'
    || ('\U{2000}' <= c <= '\U{200A}')
    || c == '\U{2028}' || c == '\U{2029}' || c == '\U{202F}' || c == '\U{205F}'
    || c == '\U{3000}' || c == '\U{FEFF}'
  }

  function TrimStart(s: string): (t: string)
    ensures |t| <= |s| && t == s[|s| - |t|..]
    ensures |t| > 0 ==> !IsJsSpace(t[0])
    ensures |s| > 0 && !IsJsSpace(s[0]) ==> t == s
  {
    if |s| > 0 && IsJsSpace(s[0]) then TrimStart(s[1..]) else s
  }

  /** The value of `c` as a digit in bases up to 36, or -1. */
  function DigitValue(c: char): int {
    if '0' <= c <= '9' then c as int - '0' as int
    else if 'a' <= c <= 'z' then c as int - 'a' as int + 10
    else if 'A' <= c <= 'Z' then c as int - 'A' as int + 10
    else -1
  }

  predicate IsDigit(c: char, radix: nat) {
    0 <= DigitValue(c) < radix
  }

  /** The length of the longest prefix of `s` made of base-`radix` digits. */
  function DigitRun(s: string, radix: nat): (k: nat)
    ensures k <= |s|
    ensures forall i :: 0 <= i < k ==> IsDigit(s[i], radix)
    ensures k < |s| ==> !IsDigit(s[k], radix)
  {
    if |s| > 0 && IsDigit(s[0], radix) then 1 + DigitRun(s[1..], radix) else 0
  }

  function DigitsValue(s: string, radix: nat): nat
    requires forall i :: 0 <= i < |s| ==> IsDigit(s[i], radix)
  {
    if |s| == 0 then 0
    else
      assert IsDigit(s[|s| - 1], radix);
      DigitsValue(s[..|s| - 1], radix) * radix + DigitValue(s[|s| - 1])
  }

  /** The value of the leading digit run, or NaN (`None`) when there is none. */
  function LeadingDigits(s: string, radix: nat): Option<nat> {
    var k := DigitRun(s, radix);
    if k == 0 then None else Some(DigitsValue(s[..k], radix))
  }

  predicate HasHexPrefix(u: string) {
    |u| >= 2 && u[0] == '0' && (u[1] == 'x' || u[1] == 'X')
  }

  /**
   `parseInt(s)` with no radix: skip leading white space, read an optional
   sign, switch to base 16 after a `0x`/`0X` prefix, then read the longest
   run of digits. No digit at all gives NaN (`None`).
   */
  function ParseInt(s: string): (r: Option<int>)
    ensures |s| == 0 ==> r.None?
    ensures (forall i :: 0 <= i < |s| ==> !IsDigit(s[i], 10)) ==> r.None?
  {
    var t := TrimStart(s);
    var negative := |t| > 0 && t[0] == '-';
    var u := if |t| > 0 && (t[0] == '-' || t[0] == '+') then t[1..] else t;
    var magnitude := if HasHexPrefix(u) then LeadingDigits(u[2..], 16) else LeadingDigits(u, 10);
    match magnitude
    case None => None
    case Some(m) =>
      var signed: int := if negative then 0 - (m as int) else m as int;
      Some(signed)
  }

  /** `parseInt(v)` for any value: JavaScript converts the value to a string first. */
  function ParseIntValue(v: Value): Option<int> {
    ParseInt(ToStr(v))
  }

  /** `isNaN(parseInt(v))`. */
  predicate IsNaNId(v: Value) {
    ParseIntValue(v).None?
  }

  // ---------------------------------------------------------------------
  // Lemmas

  lemma {:induction false} NatToStringDigits(n: nat)
    ensures |NatToString(n)| >= 1
    ensures forall i :: 0 <= i < |NatToString(n)| ==> IsDigit(NatToString(n)[i], 10)
    ensures DigitsValue(NatToString(n), 10) == n
    ensures NatToString(n)[0] == '0' ==> n == 0
    decreases n
  {
    var s := NatToString(n);
    if n < 10 {
      assert s == [DigitChar(n)];
    } else {
      NatToStringDigits(n / 10);
      var h := NatToString(n / 10);
      assert s == h + [DigitChar(n % 10)];
      assert s[..|s| - 1] == h;
      assert s[0] == h[0];
    }
  }

  /** The decimal rendering of a natural number is read back whole. */
  lemma LeadingDigitsOfNat(m: nat)
    ensures LeadingDigits(NatToString(m), 10) == Some(m)
    ensures !HasHexPrefix(NatToString(m))
    ensures |NatToString(m)| > 0 && '0' <= NatToString(m)[0] <= '9'
  {
    NatToStringDigits(m);
    var d := NatToString(m);
    var k := DigitRun(d, 10);
    if k < |d| {
      assert false;
    }
    assert d[..k] == d;
    assert IsDigit(d[0], 10);
  }

  /** `parseInt(String(n))` gives `n` back for every integer. */
  lemma ParseIntRoundTrip(n: int)
    ensures ParseInt(IntToString(n)) == Some(n)
  {
    var m: nat := if n < 0 then -n else n;
    LeadingDigitsOfNat(m);
    var d := NatToString(m);
    var s := IntToString(n);
    assert !IsJsSpace(s[0]);
    assert TrimStart(s) == s;
    if n < 0 {
      assert s == "-" + d;
      assert s[1..] == d;
    } else {
      assert s == d;
      assert s[0] != '-' && s[0] != '+';
    }
  }

  /** So `parseInt` of an integer-valued number is that number. */
  lemma ParseIntOfNumber(n: int)
    ensures ParseIntValue(Num(n)) == Some(n)
  {
    ParseIntRoundTrip(n);
  }
}
