/**
 * Values that flow through MongoMapper's association and nested-attribute code:
 * attribute values, the Ruby coercions the core relies on (`to_s`, `blank?`,
 * truthiness, `String#to_i`, boolean coercion of a `_destroy` value) and the
 * error and result wrappers that stand for Ruby's exceptions.
 */
module Values {

  datatype Option<T> = None | Some(value: T)

  /** The errors the core raises: ArgumentErrors, and the NameError of an undefined constant. */
  datatype Error =
    | HashOrArrayExpected              // nested-attributes payload of the wrong shape
    | UnknownOptionKeys(keys: set<string>)  // assert_valid_keys on declaration options
    | NoAssociationFound(name: string)  // accepts_nested_attributes_for on an undeclared name
    | UninitializedConstant(name: string)  // NameError: `constantize` of an undefined class name

  datatype Result<T> = Ok(value: T) | Err(error: Error)

  datatype Outcome = Pass | Fail(error: Error)

  /** An attribute value: nil, a boolean, an integer, a string, a symbol or an ObjectId. */
  datatype Value =
    | Nil
    | Bool(b: bool)
    | Int(i: int)
    | Str(s: string)
    | Sym(name: string)
    | Oid(hex: string)

  /** A flat attribute map with string keys. */
  type Attrs = map<string, Value>

  /** `hash[key]`: a missing key reads as nil. */
  function Get(a: Attrs, key: string): Value {
    if key in a then a[key] else Nil
  }

  /** Ruby truthiness: only nil and false are falsy. */
  predicate Truthy(v: Value) {
    !(v.Nil? || v == Bool(false))
  }

  predicate IsSpace(c: char) {
    c == ' ' || c == '\t' || c == '\n' || c == '\r' || c == '\U{0B}' || c == '\U{0C}'
  }

  /** ActiveSupport's `blank?`: nil, false, a whitespace-only string, an empty symbol. */
  predicate Blank(v: Value) {
    match v
    case Nil => true
    case Bool(b) => !b
    case Int(_) => false
    case Str(s) => forall k :: 0 <= k < |s| ==> IsSpace(s[k])
    case Sym(n) => |n| == 0
    case Oid(_) => false
  }

  function DigitChar(d: nat): char
    requires d < 10
  {
    "0123456789"[d]
  }

  /** Decimal digits of a natural number, most significant first. */
  function NatToString(n: nat): (r: string)
    ensures |r| > 0
    ensures forall k :: 0 <= k < |r| ==> '0' <= r[k] <= '9'
    decreases n
  {
    if n < 10 then [DigitChar(n)] else NatToString(n / 10) + [DigitChar(n % 10)]
  }

  function IntToString(i: int): string {
    if i < 0 then "-" + NatToString(-i) else NatToString(i)
  }

  /** `to_s` of a value. */
  function ToS(v: Value): string {
    match v
    case Nil => ""
    case Bool(b) => if b then "true" else "false"
    case Int(i) => IntToString(i)
    case Str(s) => s
    case Sym(n) => n
    case Oid(h) => h
  }

  /** ASCII `downcase`. */
  function Lower(s: string): (r: string)
    ensures |r| == |s|
  {
    seq(|s|, k requires 0 <= k < |s| => if 'A' <= s[k] <= 'Z' then (s[k] as int + 32) as char else s[k])
  }

  /**
   * The boolean coercion applied to a `_destroy` value: `true` itself, or a value
   * whose string form is "true", "t" or "1" in any letter case.
   */
  predicate BooleanToMongo(v: Value) {
    if v.Bool? then v.b else Lower(ToS(v)) in {"true", "t", "1"}
  }

  function DropLeadingSpaces(s: string): (r: string)
    ensures |r| <= |s|
    ensures r == s[|s| - |r|..]
  {
    if |s| > 0 && IsSpace(s[0]) then DropLeadingSpaces(s[1..]) else s
  }

  /** The longest prefix of `s` made of decimal digits. */
  function DigitPrefix(s: string): (r: string)
    ensures |r| <= |s| && r == s[..|r|]
    ensures forall k :: 0 <= k < |r| ==> '0' <= r[k] <= '9'
  {
    if |s| > 0 && '0' <= s[0] <= '9' then [s[0]] + DigitPrefix(s[1..]) else []
  }

  /** The value of a string of decimal digits. */
  function DigitsValue(ds: string): nat
    requires forall k :: 0 <= k < |ds| ==> '0' <= ds[k] <= '9'
  {
    if |ds| == 0 then 0
    else DigitsValue(ds[..|ds| - 1]) * 10 + (ds[|ds| - 1] as int - '0' as int)
  }

  /** `String#to_i`: leading blanks, an optional sign, then the longest run of digits; 0 if none. */
  function ToI(s: string): int {
    var t := DropLeadingSpaces(s);
    if |t| > 0 && t[0] == '-' then -(DigitsValue(DigitPrefix(t[1..]) ) as int)
    else if |t| > 0 && t[0] == '+' then DigitsValue(DigitPrefix(t[1..]))
    else DigitsValue(DigitPrefix(t))
  }

  lemma {:induction false} DigitPrefixOfDigits(s: string)
    requires forall k :: 0 <= k < |s| ==> '0' <= s[k] <= '9'
    ensures DigitPrefix(s) == s
  {
    if |s| > 0 {
      DigitPrefixOfDigits(s[1..]);
    }
  }

  lemma {:induction false} DigitsValueOfNatToString(n: nat)
    ensures DigitsValue(NatToString(n)) == n
    decreases n
  {
    var r := NatToString(n);
    if n >= 10 {
      DigitsValueOfNatToString(n / 10);
      assert r[..|r| - 1] == NatToString(n / 10);
    }
  }

  lemma DigitsSurviveLeadingSpaceDrop(s: string)
    requires |s| > 0 && '0' <= s[0] <= '9'
    ensures DropLeadingSpaces(s) == s
  {
  }

  lemma ToIOfDigits(s: string)
    requires |s| > 0 && forall k :: 0 <= k < |s| ==> '0' <= s[k] <= '9'
    ensures ToI(s) == DigitsValue(s)
  {
    DigitsSurviveLeadingSpaceDrop(s);
    DigitPrefixOfDigits(s);
  }

  /** A hash key written as a decimal index reads back as that index through `to_i`. */
  lemma ToIOfIndexKey(n: nat)
    ensures ToI(NatToString(n)) == n
  {
    ToIOfDigits(NatToString(n));
    DigitsValueOfNatToString(n);
  }
}
