// JavaScript values as they appear in the landing page's scripts: strings,
// `null`, JSON records kept in local storage, and the coercions the scripts
// rely on (truthiness, `||`, template-literal stringification, `trim`,
// `includes`).

module JsValues {

  datatype Option<+T> = None | Some(value: T)

  /** A JSON value, as stored by `JSON.stringify` and read back by `JSON.parse`. */
  datatype Json =
    | JNull
    | JBool(b: bool)
    | JNum(n: int)
    | JStr(s: string)
    | JArr(elems: seq<Json>)
    | JObj(fields: map<string, Json>)

  /** JavaScript truthiness of a JSON value. */
  predicate Truthy(v: Json)
  {
    match v
    case JNull => false
    case JBool(b) => b
    case JNum(n) => n != 0
    case JStr(s) => s != ""
    case JArr(_) => true
    case JObj(_) => true
  }

  /** JavaScript `a || b`: the first operand if it is truthy, else the second. */
  function Or(a: Json, b: Json): Json
  {
    if Truthy(a) then a else b
  }

  /** A `string | null` value (what `URLSearchParams.get` returns) is truthy. */
  predicate Present(o: Option<string>)
  {
    o.Some? && o.value != ""
  }

  /** JavaScript `a || b` on two `string | null` values. */
  function OrElse(a: Option<string>, b: Option<string>): (r: Option<string>)
    ensures Present(a) ==> r == a
    ensures !Present(a) ==> r == b
    ensures r == a || r == b
    ensures Present(r) <==> Present(a) || Present(b)
  {
    if Present(a) then a else b
  }

  /** A `string | null` value as JSON. */
  function ToJson(o: Option<string>): (j: Json)
    ensures Truthy(j) <==> Present(o)
  {
    match o
    case None => JNull
    case Some(s) => JStr(s)
  }

  /** `String(x)` for a `string | null` value, as `URLSearchParams` applies it to a record's values. */
  function NullableText(o: Option<string>): (r: string)
    ensures o == None ==> r == "null"
    ensures o.Some? ==> r == o.value
    ensures r == "null" <==> o == None || o == Some("null")
  {
    match o
    case None => "null"
    case Some(s) => s
  }

  /** Once written as text, a null value and the string "null" cannot be told apart. */
  lemma NullTextAmbiguous()
    ensures NullableText(None) == NullableText(Some("null"))
    ensures forall o: Option<string> :: NullableText(o) == "null" ==> o == None || o == Some("null")
  {
  }

  // ----- decimal numbers -----

  function DigitChar(d: nat): (c: char)
    requires d < 10
    ensures '0' <= c <= '9'
  {
    (48 + d) as char
  }

  /** The decimal text of a natural number, as `String(n)` writes it. */
  function NatToText(n: nat): (r: string)
    ensures |r| > 0
    ensures forall k :: 0 <= k < |r| ==> '0' <= r[k] <= '9'
    decreases n
  {
    if n < 10 then [DigitChar(n)] else NatToText(n / 10) + [DigitChar(n % 10)]
  }

  /** Reads a string of decimal digits back as a number. */
  function ParseDecimal(s: string): nat
    requires forall k :: 0 <= k < |s| ==> '0' <= s[k] <= '9'
    decreases |s|
  {
    if |s| == 0 then 0 else ParseDecimal(s[..|s| - 1]) * 10 + ((s[|s| - 1] as int) - 48)
  }

  /** The decimal text of a number reads back as that number. */
  lemma {:induction false} NatToTextRoundTrip(n: nat)
    ensures ParseDecimal(NatToText(n)) == n
  {
    if n >= 10 {
      var r := NatToText(n);
      assert r[..|r| - 1] == NatToText(n / 10);
      NatToTextRoundTrip(n / 10);
    }
  }

  /** `String(n)` for an integer. */
  function IntToText(n: int): (r: string)
    ensures |r| > 0
    ensures n < 0 <==> r[0] == '-'
    ensures n >= 0 ==> (forall k :: 0 <= k < |r| ==> '0' <= r[k] <= '9') && ParseDecimal(r) == n
    ensures n < 0 ==> |r| > 1 && (forall k :: 1 <= k < |r| ==> '0' <= r[k] <= '9') && ParseDecimal(r[1..]) == -n
  {
    if n < 0 then NatToTextRoundTrip(-n); assert ("-" + NatToText(-n))[1..] == NatToText(-n); "-" + NatToText(-n)
    else NatToTextRoundTrip(n); NatToText(n)
  }

  /**
   * `String(v)` for a JSON value, as a template literal `${v}` applies it:
   * arrays join their elements with commas (null elements become empty),
   * objects print as "[object Object]".
   */
  function ToText(v: Json): string
    decreases v
  {
    match v
    case JNull => "null"
    case JBool(b) => if b then "true" else "false"
    case JNum(n) => IntToText(n)
    case JStr(s) => s
    case JArr(es) => JoinText(es)
    case JObj(_) => "[object Object]"
  }

  /** `Array.prototype.join(",")` over JSON values. */
  function JoinText(es: seq<Json>): string
    decreases es
  {
    if |es| == 0 then ""
    else
      var first := if es[0].JNull? then "" else ToText(es[0]);
      if |es| == 1 then first else first + "," + JoinText(es[1..])
  }

  // ----- characters and strings -----

  /**
   * The characters JavaScript's `\s` matches and `String.prototype.trim`
   * removes: the WhiteSpace and LineTerminator code points of ECMAScript.
   */
  predicate IsJsSpace(c: char)
  {
    c == '\t' || c == '\n' || c == '\U{000B}' || c == '\U{000C}' || c == '\r' || c == ' '
    || c == '\U{00A0}' || c == '\U{1680}' || ('\U{2000}' <= c <= '\U{200A}')
    || c == '\U{2028}' || c == '\U{2029}' || c == '\U{202F}' || c == '\U{205F}'
    || c == '\U{3000}' || c == '\U{FEFF}'
  }

  predicate AllSpace(s: string)
  {
    forall k :: 0 <= k < |s| ==> IsJsSpace(s[k])
  }

  function TrimStart(s: string): (r: string)
    ensures |r| <= |s| && r == s[|s| - |r|..]
    ensures r == "" || !IsJsSpace(r[0])
    ensures AllSpace(s[..|s| - |r|])
    decreases |s|
  {
    if |s| > 0 && IsJsSpace(s[0]) then
      var r := TrimStart(s[1..]);
      assert s[..|s| - |r|] == [s[0]] + s[1..][..|s| - 1 - |r|];
      AllSpaceConcat([s[0]], s[1..][..|s| - 1 - |r|]);
      r
    else s
  }

  function TrimEnd(s: string): (r: string)
    ensures |r| <= |s| && r == s[..|r|]
    ensures r == "" || !IsJsSpace(r[|r| - 1])
    ensures AllSpace(s[|r|..])
    decreases |s|
  {
    if |s| > 0 && IsJsSpace(s[|s| - 1]) then
      var r := TrimEnd(s[..|s| - 1]);
      assert s[|r|..] == s[..|s| - 1][|r|..] + [s[|s| - 1]];
      AllSpaceConcat(s[..|s| - 1][|r|..], [s[|s| - 1]]);
      r
    else s
  }

  /** `String.prototype.trim`. */
  function Trim(s: string): string
  {
    TrimEnd(TrimStart(s))
  }

  /** A string trims to the empty string exactly when every character of it is white space. */
  lemma TrimEmptyIff(s: string)
    ensures Trim(s) == "" <==> AllSpace(s)
  {
    var t := TrimStart(s);
    var u := s[..|s| - |t|];
    if Trim(s) == "" {
      var r := TrimEnd(t);
      assert AllSpace(t[|r|..]) && t[|r|..] == t;
      AllSpaceConcat(u, t);
      assert u + t == s;
    } else {
      TrimNotAllSpace(s);
    }
  }

  /** Two runs of white space make one. */
  lemma AllSpaceConcat(a: string, b: string)
    requires AllSpace(a) && AllSpace(b)
    ensures AllSpace(a + b)
  {
    forall k | 0 <= k < |a + b| ensures IsJsSpace((a + b)[k]) {
      if k < |a| { assert (a + b)[k] == a[k]; } else { assert (a + b)[k] == b[k - |a|]; }
    }
  }

  /** A string that trims to something non-empty has a character that is not white space. */
  lemma TrimNotAllSpace(s: string)
    requires Trim(s) != ""
    ensures !AllSpace(s)
  {
    var t := TrimStart(s);
    var r := Trim(s);
    assert !IsJsSpace(r[|r| - 1]);
    assert r[|r| - 1] == t[|r| - 1];
    assert t[|r| - 1] == s[|s| - |t| + |r| - 1];
  }

  /** `s.startsWith(p)`. */
  predicate StartsWith(s: string, p: string)
  {
    |p| <= |s| && s[..|p|] == p
  }

  /** `s.includes(sub)`: `sub` occurs in `s` at some position. */
  predicate Contains(s: string, sub: string)
  {
    exists i :: 0 <= i <= |s| && StartsWith(s[i..], sub)
  }

  /** A witness position shows that a string contains another. */
  lemma ContainsAt(s: string, sub: string, i: nat)
    requires i + |sub| <= |s| && s[i..i + |sub|] == sub
    ensures Contains(s, sub)
  {
    assert StartsWith(s[i..], sub);
  }

  /** Every string contains the empty string, as `"...".includes("")` is true. */
  lemma ContainsEmpty(s: string)
    ensures Contains(s, "")
  {
    assert StartsWith(s[0..], "");
  }

  predicate IsAsciiUpper(c: char) { 'A' <= c <= 'Z' }
  predicate IsAsciiLower(c: char) { 'a' <= c <= 'z' }
  predicate IsAsciiDigit(c: char) { '0' <= c <= '9' }

  /** `[A-Z0-9]` under the `i` flag: exactly the ASCII letters and digits. */
  predicate IsAsciiAlnum(c: char)
  {
    IsAsciiUpper(c) || IsAsciiLower(c) || IsAsciiDigit(c)
  }

  function LowerChar(c: char): (r: char)
    ensures IsAsciiUpper(c) ==> r as int == c as int + 32
    ensures !IsAsciiUpper(c) ==> r == c
  {
    if IsAsciiUpper(c) then (c as int + 32) as char else c
  }

  /** `toLowerCase` restricted to ASCII letters. */
  function LowerAscii(s: string): (r: string)
    ensures |r| == |s|
    ensures forall k :: 0 <= k < |s| ==> r[k] == LowerChar(s[k])
    ensures forall k :: 0 <= k < |r| ==> !IsAsciiUpper(r[k])
    ensures forall k :: 0 <= k < |r| ==> (IsAsciiAlnum(r[k]) <==> IsAsciiAlnum(s[k]))
  {
    seq(|s|, k requires 0 <= k < |s| => LowerChar(s[k]))
  }

  /** Lowering twice is lowering once. */
  lemma LowerAsciiIdempotent(s: string)
    ensures LowerAscii(LowerAscii(s)) == LowerAscii(s)
  {
  }
}
