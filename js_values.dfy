/**
 * The untrusted side of the climb model: values as JSON decoding produces
 * them (plus `undefined`, which a missing property reads as), and the
 * JavaScript coercions the normaliser applies to them: truthiness,
 * `String(v)`, `Number(v)` and `String.prototype.trim`.
 *
 * Numbers outside point coordinates are modelled as integers; a point
 * object `{x, y}` with numeric coordinates is the constructor `Pt`.
 */
module JsValues {
  import opened Wrappers

  datatype Value =
    | Undefined
    | Null
    | Bool(b: bool)
    | Num(n: int)
    | Str(s: string)
    | Arr(items: seq<Value>)
    | Obj(fields: map<string, Value>)
    | Pt(x: real, y: real)

  /** JavaScript truthiness: `undefined`, `null`, `false`, `0` and `""` are falsy. */
  predicate Truthy(v: Value) {
    match v
    case Undefined => false
    case Null => false
    case Bool(b) => b
    case Num(n) => n != 0
    case Str(s) => s != ""
    case _ => true
  }

  /** Reading property `key` of `v`; everything but a plain object has none of the climb's properties. */
  function Get(v: Value, key: string): Value {
    match v
    case Obj(f) => if key in f then f[key] else Undefined
    case _ => Undefined
  }

  // ---------- Whitespace and trimming ----------

  /** The ECMAScript WhiteSpace and LineTerminator code points, which `trim` and `Number` skip. */
  predicate IsSpace(c: char) {
    c == '\t' || c == '\n' || c == '\U{B}' || c == '\U{C}' || c == '\r' || c == ' '
    || c == '\U{A0}' || c == '\U{1680}' || ('\U{2000}' <= c <= '\U{200A}')
    || c == '\U{2028}' || c == '\U{2029}' || c == '\U{202F}' || c == '\U{205F}'
    || c == '\U{3000}' || c == '\U{FEFF}'
  }

  predicate IsBlank(s: string) {
    forall i :: 0 <= i < |s| ==> IsSpace(s[i])
  }

  /** The number of whitespace characters `s` starts with. */
  function LeadingSpace(s: string): (n: nat)
    ensures n <= |s|
    ensures forall i :: 0 <= i < n ==> IsSpace(s[i])
    ensures n < |s| ==> !IsSpace(s[n])
    decreases |s|
  {
    if |s| > 0 && IsSpace(s[0]) then 1 + LeadingSpace(s[1..]) else 0
  }

  /** The position where the whitespace `s` ends with begins. */
  function TrailingSpaceStart(s: string): (n: nat)
    ensures n <= |s|
    ensures forall i :: n <= i < |s| ==> IsSpace(s[i])
    ensures n > 0 ==> !IsSpace(s[n - 1])
    decreases |s|
  {
    if |s| > 0 && IsSpace(s[|s| - 1]) then TrailingSpaceStart(s[..|s| - 1]) else |s|
  }

  /**
   * `String.prototype.trim`: the part of `s` between its leading and its
   * trailing whitespace, which is empty when `s` is all whitespace.
   */
  function Trim(s: string): (r: string)
    ensures r == [] || (!IsSpace(r[0]) && !IsSpace(r[|r| - 1]))
  {
    var a := LeadingSpace(s);
    if a == |s| then [] else s[a..TrailingSpaceStart(s)]
  }

  /**
   * What `trim` removes is whitespace and only whitespace: the result is
   * a slice of `s` with nothing but whitespace on either side of it.
   */
  lemma TrimStripsSurroundingSpace(s: string)
    ensures exists i, j :: 0 <= i <= j <= |s| && Trim(s) == s[i..j] && IsBlank(s[..i]) && IsBlank(s[j..])
  {
    var a := LeadingSpace(s);
    if a == |s| {
      assert Trim(s) == s[a..a] && s[..a] == s && s[a..] == [];
    } else {
      var b := TrailingSpaceStart(s);
      assert a < b by {
        assert !IsSpace(s[a]);
      }
      assert IsBlank(s[..a]) by {
        forall k | 0 <= k < a ensures IsSpace(s[..a][k]) {
          assert s[..a][k] == s[k];
        }
      }
      assert IsBlank(s[b..]) by {
        forall k | 0 <= k < |s| - b ensures IsSpace(s[b..][k]) {
          assert s[b..][k] == s[b + k];
        }
      }
      assert Trim(s) == s[a..b];
    }
  }

  /** Trimming leaves nothing exactly when the string is all whitespace. */
  lemma TrimEmptyIffBlank(s: string)
    ensures Trim(s) == [] <==> IsBlank(s)
  {
    var a := LeadingSpace(s);
    if a < |s| {
      assert !IsSpace(s[a]);
      assert a < TrailingSpaceStart(s);
    }
  }

  /** A string without whitespace at either end is left alone by `trim`. */
  lemma TrimUnchanged(s: string)
    requires s == [] || (!IsSpace(s[0]) && !IsSpace(s[|s| - 1]))
    ensures Trim(s) == s
  {
  }

  /** Trimming twice is trimming once. */
  lemma TrimIdempotent(s: string)
    ensures Trim(Trim(s)) == Trim(s)
  {
    TrimUnchanged(Trim(s));
  }

  // ---------- Integers as decimal text ----------

  predicate IsDigit(c: char) {
    '0' <= c <= '9'
  }

  predicate AllDigits(s: string) {
    forall i :: 0 <= i < |s| ==> IsDigit(s[i])
  }

  function DigitChar(d: nat): char
    requires d < 10
  {
    (48 + d) as char
  }

  /** The shortest decimal spelling of `n`, most significant digit first. */
  function NatText(n: nat): (r: string)
    ensures r != [] && AllDigits(r)
    ensures |r| > 1 ==> r[0] != '0'
    decreases n
  {
    if n < 10 then [DigitChar(n)] else NatText(n / 10) + [DigitChar(n % 10)]
  }

  /** The value of a string of decimal digits. */
  function DigitsValue(s: string): nat
    requires AllDigits(s)
    decreases |s|
  {
    if s == [] then 0 else DigitsValue(s[..|s| - 1]) * 10 + (s[|s| - 1] as int - 48)
  }

  /** `String(n)` for an integer-valued number. */
  function IntText(n: int): string {
    if n < 0 then "-" + NatText(-n) else NatText(n)
  }

  /**
   * `Number(s)` for a string: surrounding whitespace is ignored, the empty
   * string is 0, an optionally signed run of decimal digits is its value,
   * and anything else is NaN (`None`).
   */
  function StringToNumber(s: string): Option<int> {
    ReadDecimal(Trim(s))
  }

  /** An already trimmed numeric text: empty, or an optionally signed run of digits. */
  function ReadDecimal(t: string): Option<int> {
    if t == [] then Some(0)
    else if t[0] == '-' && |t| > 1 && AllDigits(t[1..]) then Some(0 - DigitsValue(t[1..]))
    else if t[0] == '+' && |t| > 1 && AllDigits(t[1..]) then Some(DigitsValue(t[1..]))
    else if AllDigits(t) then Some(DigitsValue(t))
    else None
  }

  lemma {:induction false} NatTextRoundTrip(n: nat)
    ensures DigitsValue(NatText(n)) == n
    decreases n
  {
    if n >= 10 {
      NatTextRoundTrip(n / 10);
      var t := NatText(n);
      assert t[..|t| - 1] == NatText(n / 10);
    }
  }

  lemma ReadNatText(m: nat)
    ensures StringToNumber(NatText(m)) == Some(m)
  {
    var d := NatText(m);
    NatTextRoundTrip(m);
    assert IsDigit(d[0]) && IsDigit(d[|d| - 1]);
    TrimUnchanged(d);
    assert ReadDecimal(d) == Some(m);
  }

  lemma ReadNegatedNatText(m: nat)
    requires m > 0
    ensures StringToNumber("-" + NatText(m)) == Some(0 - m)
  {
    var d := NatText(m);
    var t := "-" + d;
    assert IsDigit(d[|d| - 1]) && t[|t| - 1] == d[|d| - 1];
    TrimUnchanged(t);
    NatTextRoundTrip(m);
    assert t[1..] == d;
    assert ReadDecimal(t) == Some(0 - m);
  }

  /** Reading back the decimal spelling of an integer gives the integer. */
  lemma IntTextRoundTrip(n: int)
    ensures StringToNumber(IntText(n)) == Some(n)
  {
    if n < 0 {
      ReadNegatedNatText(-n);
    } else {
      ReadNatText(n);
    }
  }

  // ---------- String() and Number() ----------

  function JoinComma(parts: seq<string>): string {
    if |parts| == 0 then ""
    else if |parts| == 1 then parts[0]
    else parts[0] + "," + JoinComma(parts[1..])
  }

  /**
   * `String(v)`: an array is its elements' texts joined by commas, with
   * `null` and `undefined` elements as empty text; any object is
   * "[object Object]".
   */
  function ToText(v: Value): string {
    match v
    case Undefined => "undefined"
    case Null => "null"
    case Bool(b) => if b then "true" else "false"
    case Num(n) => IntText(n)
    case Str(s) => s
    case Arr(items) =>
      JoinComma(seq(|items|, i requires 0 <= i < |items| =>
        if items[i].Undefined? || items[i].Null? then "" else ToText(items[i])))
    case Obj(_) => "[object Object]"
    case Pt(_, _) => "[object Object]"
  }

  /** `Number(v)`, with `None` for NaN; an array converts through its text. */
  function ToNumber(v: Value): Option<int> {
    match v
    case Undefined => None
    case Null => Some(0)
    case Bool(b) => Some(if b then 1 else 0)
    case Num(n) => Some(n)
    case Str(s) => StringToNumber(s)
    case Arr(_) => StringToNumber(ToText(v))
    case Obj(_) => None
    case Pt(_, _) => None
  }

  /** `String(v || "")`: the text of a truthy value, and "" for a falsy one. */
  function CoerceText(v: Value): (r: string)
    ensures v.Str? ==> r == v.s
    ensures !Truthy(v) ==> r == ""
    ensures v.Num? ==> ToNumber(Str(r)) == Some(v.n)
  {
    match v
    case Num(n) =>
      if Truthy(v) then IntTextRoundTrip(n); ToText(v) else ""
    case _ => if Truthy(v) then ToText(v) else ""
  }
}
