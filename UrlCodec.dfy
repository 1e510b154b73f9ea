// Query strings as the scripts use them through `URLSearchParams` and
// `encodeURIComponent`: an ordered list of decoded name/value pairs, the
// lookups and edits the scripts make on it, and a serializer with its parser.
//
// The serializer follows the application/x-www-form-urlencoded rule of the
// WHATWG URL Standard (section 5.2) for ASCII characters: letters, digits and
// `*-._` stay, a space becomes `+`, every other ASCII character becomes `%XX`.
// `encodeURIComponent` keeps letters, digits and `-_.!~*'()` and writes a
// space as `%20`. Characters outside ASCII are passed through unchanged
// instead of being written as percent-escaped UTF-8 bytes.

module UrlCodec {
  import opened JsValues

  type Pair = (string, string)
  type Query = seq<Pair>

  // ----- lookups and edits (URLSearchParams) -----

  /** Some pair of the query has this name (`URLSearchParams.has`). */
  predicate Has(q: Query, name: string)
  {
    exists k :: 0 <= k < |q| && q[k].0 == name
  }

  /** `URLSearchParams.get`: the value of the first pair with this name, or null. */
  function Get(q: Query, name: string): (r: Option<string>)
    ensures r.None? <==> !Has(q, name)
    decreases |q|
  {
    if |q| == 0 then None
    else if q[0].0 == name then Some(q[0].1)
    else
      assert forall k :: 1 <= k < |q| ==> q[k] == q[1..][k - 1];
      Get(q[1..], name)
  }

  /** The pairs whose name differs from `name`, in their order (`URLSearchParams.delete`). */
  function Delete(q: Query, name: string): (r: Query)
    ensures |r| <= |q|
    ensures !Has(r, name)
    decreases |q|
  {
    if |q| == 0 then []
    else if q[0].0 == name then Delete(q[1..], name)
    else [q[0]] + Delete(q[1..], name)
  }

  /** The first pair with this name gets the value `v`; later pairs with this name are dropped. */
  function ReplaceFirst(q: Query, name: string, v: string): Query
    decreases |q|
  {
    if |q| == 0 then []
    else if q[0].0 == name then [(name, v)] + Delete(q[1..], name)
    else [q[0]] + ReplaceFirst(q[1..], name, v)
  }

  /**
   * `URLSearchParams.set`: replaces the value of the first pair with this name
   * and drops the other pairs with this name, or appends a pair when there is none.
   */
  function Set(q: Query, name: string, v: string): Query
  {
    if Has(q, name) then ReplaceFirst(q, name, v) else q + [(name, v)]
  }

  /** `URLSearchParams.append`. */
  function Append(q: Query, name: string, v: string): (r: Query)
    ensures |r| == |q| + 1 && r[..|q|] == q && r[|q|] == (name, v)
  {
    q + [(name, v)]
  }

  lemma {:induction false} GetAfterDelete(q: Query, name: string, other: string)
    ensures Get(Delete(q, name), other) == if other == name then None else Get(q, other)
    decreases |q|
  {
    if |q| > 0 {
      GetAfterDelete(q[1..], name, other);
    }
  }

  lemma {:induction false} DeleteTwice(q: Query, name: string)
    ensures Delete(Delete(q, name), name) == Delete(q, name)
    decreases |q|
  {
    if |q| > 0 {
      DeleteTwice(q[1..], name);
    }
  }

  lemma {:induction false} ReplaceFirstFacts(q: Query, name: string, v: string, other: string)
    requires Has(q, name)
    ensures Get(ReplaceFirst(q, name, v), name) == Some(v)
    ensures other != name ==> Get(ReplaceFirst(q, name, v), other) == Get(q, other)
    ensures Delete(ReplaceFirst(q, name, v), name) == Delete(q, name)
    decreases |q|
  {
    if q[0].0 == name {
      GetAfterDelete(q[1..], name, other);
      DeleteTwice(q[1..], name);
    } else {
      assert Has(q[1..], name) by {
        var k :| 0 <= k < |q| && q[k].0 == name;
        assert q[1..][k - 1] == q[k];
      }
      ReplaceFirstFacts(q[1..], name, v, other);
    }
  }

  lemma {:induction false} GetAppend(q: Query, name: string, v: string, other: string)
    ensures Get(q + [(name, v)], other) == if Has(q, other) then Get(q, other) else if other == name then Some(v) else None
    decreases |q|
  {
    if |q| == 0 {
    } else {
      assert (q + [(name, v)])[1..] == q[1..] + [(name, v)];
      GetAppend(q[1..], name, v, other);
      if q[0].0 != other {
        assert Has(q, other) <==> Has(q[1..], other) by {
          if Has(q, other) {
            var k :| 0 <= k < |q| && q[k].0 == other;
            assert q[1..][k - 1] == q[k];
          }
          if Has(q[1..], other) {
            var k :| 0 <= k < |q[1..]| && q[1..][k].0 == other;
            assert q[k + 1] == q[1..][k];
          }
        }
      }
    }
  }

  lemma {:induction false} DeleteAppend(q: Query, name: string, v: string)
    ensures Delete(q + [(name, v)], name) == Delete(q, name)
    decreases |q|
  {
    if |q| == 0 {
      assert Delete([(name, v)], name) == Delete([], name);
    } else {
      assert (q + [(name, v)])[1..] == q[1..] + [(name, v)];
      DeleteAppend(q[1..], name, v);
    }
  }

  /**
   * What `set` promises: afterwards the name has exactly the new value, every
   * other name reads as before, and the pairs with other names are unchanged
   * and in their order.
   */
  lemma SetFacts(q: Query, name: string, v: string, other: string)
    ensures Get(Set(q, name, v), name) == Some(v)
    ensures other != name ==> Get(Set(q, name, v), other) == Get(q, other)
    ensures Delete(Set(q, name, v), name) == Delete(q, name)
  {
    if Has(q, name) {
      ReplaceFirstFacts(q, name, v, other);
    } else {
      GetAppend(q, name, v, name);
      GetAppend(q, name, v, other);
      DeleteAppend(q, name, v);
    }
  }

  /** On a name the query does not have yet, `set` appends. */
  lemma SetNewIsAppend(q: Query, name: string, v: string)
    requires !Has(q, name)
    ensures Set(q, name, v) == Append(q, name, v)
  {
  }

  // ----- percent-encoding -----

  datatype Mode = Form | Component

  /** The characters a mode leaves as they are. */
  predicate SafeChar(c: char, mode: Mode)
  {
    IsAsciiAlnum(c) || c == '*' || c == '-' || c == '.' || c == '_'
    || (mode == Component && (c == '!' || c == '~' || c == '\'' || c == '(' || c == ')'))
  }

  predicate IsHexDigit(c: char)
  {
    IsAsciiDigit(c) || 'A' <= c <= 'F' || 'a' <= c <= 'f'
  }

  function HexDigit(d: nat): (c: char)
    requires d < 16
    ensures IsHexDigit(c)
  {
    if d < 10 then (48 + d) as char else (55 + d) as char
  }

  function HexValue(c: char): (d: nat)
    requires IsHexDigit(c)
    ensures d < 16
  {
    if IsAsciiDigit(c) then c as int - 48
    else if 'A' <= c <= 'F' then c as int - 55
    else c as int - 87
  }

  /** No character of the text separates pairs or names from values. */
  predicate NoDelimiters(t: string)
  {
    forall k :: 0 <= k < |t| ==> t[k] != '&' && t[k] != '='
  }

  function EscapeChar(c: char, mode: Mode): (r: string)
    ensures NoDelimiters(r) && |r| > 0
  {
    if SafeChar(c, mode) || c as int >= 128 then [c]
    else if mode == Form && c == ' ' then "+"
    else ['%', HexDigit(c as int / 16), HexDigit(c as int % 16)]
  }

  /** Percent-encoding in the given mode. */
  function Escape(s: string, mode: Mode): (r: string)
    ensures NoDelimiters(r)
    ensures |r| >= |s|
    decreases |s|
  {
    if |s| == 0 then "" else EscapeChar(s[0], mode) + Escape(s[1..], mode)
  }

  /** Percent-decoding in the given mode; its inverse is `Escape`. */
  function Unescape(t: string, mode: Mode): string
    decreases |t|
  {
    if |t| == 0 then ""
    else if |t| >= 3 && t[0] == '%' && IsHexDigit(t[1]) && IsHexDigit(t[2]) then
      [(HexValue(t[1]) * 16 + HexValue(t[2])) as char] + Unescape(t[3..], mode)
    else if mode == Form && t[0] == '+' then " " + Unescape(t[1..], mode)
    else [t[0]] + Unescape(t[1..], mode)
  }

  lemma UnescapeChar(c: char, rest: string, mode: Mode)
    ensures Unescape(EscapeChar(c, mode) + rest, mode) == [c] + Unescape(rest, mode)
  {
    var t := EscapeChar(c, mode) + rest;
    if SafeChar(c, mode) || c as int >= 128 {
      assert t[1..] == rest;
    } else if mode == Form && c == ' ' {
      assert t[1..] == rest;
    } else {
      var n := c as int;
      assert HexValue(HexDigit(n / 16)) == n / 16;
      assert HexValue(HexDigit(n % 16)) == n % 16;
      assert t[3..] == rest;
    }
  }

  /** Decoding an encoded text gives the text back. */
  lemma {:induction false} UnescapeEscape(s: string, mode: Mode)
    ensures Unescape(Escape(s, mode), mode) == s
    decreases |s|
  {
    if |s| > 0 {
      UnescapeChar(s[0], Escape(s[1..], mode), mode);
      UnescapeEscape(s[1..], mode);
    }
  }

  // ----- serialization -----

  /** `name=value` with both escaped. */
  function SerializePair(p: Pair): string
  {
    Escape(p.0, Form) + "=" + Escape(p.1, Form)
  }

  /** `URLSearchParams.toString`: the escaped pairs joined with `&`, in order. */
  function Serialize(q: Query): string
    decreases |q|
  {
    if |q| == 0 then ""
    else if |q| == 1 then SerializePair(q[0])
    else SerializePair(q[0]) + "&" + Serialize(q[1..])
  }

  /** The first position of `c` in `s`, or `|s|` when there is none. */
  function IndexOf(s: string, c: char): (i: nat)
    ensures i <= |s|
    ensures forall k :: 0 <= k < i ==> s[k] != c
    ensures i < |s| ==> s[i] == c
    decreases |s|
  {
    if |s| == 0 then 0 else if s[0] == c then 0 else 1 + IndexOf(s[1..], c)
  }

  /** Splits one `name=value` piece at its first `=`; a piece without `=` has an empty value. */
  function ParsePair(piece: string): Pair
  {
    var j := IndexOf(piece, '=');
    (Unescape(piece[..j], Form), if j == |piece| then "" else Unescape(piece[j + 1..], Form))
  }

  /** Parses a query string (without its `?`) the way `new URLSearchParams(s)` does; empty pieces are skipped. */
  function Parse(s: string): Query
    decreases |s|
  {
    var i := IndexOf(s, '&');
    var head := if i == 0 then [] else [ParsePair(s[..i])];
    if i == |s| then head else head + Parse(s[i + 1..])
  }

  /** A text without `c` has no position of `c`. */
  lemma {:induction false} IndexOfAbsent(s: string, c: char)
    requires forall k :: 0 <= k < |s| ==> s[k] != c
    ensures IndexOf(s, c) == |s|
    decreases |s|
  {
    if |s| > 0 {
      IndexOfAbsent(s[1..], c);
    }
  }

  /** The first `c` of `a + b`, when `a` has none, is the first `c` of `b`. */
  lemma {:induction false} IndexOfAfter(a: string, b: string, c: char)
    requires forall k :: 0 <= k < |a| ==> a[k] != c
    ensures IndexOf(a + b, c) == |a| + IndexOf(b, c)
    decreases |a|
  {
    if |a| > 0 {
      assert (a + b)[1..] == a[1..] + b;
      IndexOfAfter(a[1..], b, c);
    } else {
      assert a + b == b;
    }
  }

  /** `a=b` with neither side holding a delimiter: one piece, split at the `=` after `a`. */
  lemma SplitAtEquals(a: string, b: string)
    requires NoDelimiters(a) && NoDelimiters(b)
    ensures var e := a + "=" + b;
      && IndexOf(e, '=') == |a| && e[..|a|] == a && e[|a| + 1..] == b
      && IndexOf(e, '&') == |e|
  {
    var e := a + "=" + b;
    assert e == a + ("=" + b);
    IndexOfAfter(a, "=" + b, '=');
    assert e[..|a|] == a;
    assert e[|a| + 1..] == b;
    forall k | 0 <= k < |e|
      ensures e[k] != '&'
    {
      if k < |a| {
        assert e[k] == a[k];
      } else if k > |a| {
        assert e[k] == b[k - |a| - 1];
      }
    }
    IndexOfAbsent(e, '&');
  }

  /** A serialized pair is one piece: it has no `&`, and its first `=` ends the name. */
  lemma ParseSerializePair(p: Pair)
    ensures |SerializePair(p)| > 0
    ensures IndexOf(SerializePair(p), '&') == |SerializePair(p)|
    ensures ParsePair(SerializePair(p)) == p
  {
    SplitAtEquals(Escape(p.0, Form), Escape(p.1, Form));
    UnescapeEscape(p.0, Form);
    UnescapeEscape(p.1, Form);
  }

  /** A piece without `&` parses to one pair. */
  lemma ParseOne(e: string)
    requires |e| > 0 && IndexOf(e, '&') == |e|
    ensures Parse(e) == [ParsePair(e)]
  {
    assert e[..|e|] == e;
  }

  /** A piece without `&`, then `&`, then the rest: one pair, then the pairs of the rest. */
  lemma ParseCons(e: string, rest: string)
    requires |e| > 0 && IndexOf(e, '&') == |e|
    ensures Parse(e + "&" + rest) == [ParsePair(e)] + Parse(rest)
  {
    var s := e + "&" + rest;
    assert s[|e|] == '&';
    assert forall k :: 0 <= k < |e| ==> s[k] == e[k];
    assert IndexOf(s, '&') == |e|;
    assert s[..|e|] == e;
    assert s[|e| + 1..] == rest;
  }

  /** Parsing a serialized query gives back the same pairs in the same order. */
  lemma {:induction false} ParseSerialize(q: Query)
    ensures Parse(Serialize(q)) == q
    decreases |q|
  {
    if |q| == 1 {
      ParseSerializePair(q[0]);
      ParseOne(SerializePair(q[0]));
    } else if |q| > 1 {
      var e := SerializePair(q[0]);
      var rest := Serialize(q[1..]);
      ParseSerializePair(q[0]);
      assert Serialize(q) == e + "&" + rest;
      ParseCons(e, rest);
      ParseSerialize(q[1..]);
      assert q == [q[0]] + q[1..];
    }
  }

  /** A query serialized and then URI-component encoded after a prefix decodes and parses back to itself. */
  lemma NestedQueryRoundTrip(prefix: string, q: Query)
    ensures var u := prefix + Escape(Serialize(q), Component);
      && StartsWith(u, prefix)
      && Parse(Unescape(u[|prefix|..], Component)) == q
  {
    var s := Serialize(q);
    var u := prefix + Escape(s, Component);
    assert u[..|prefix|] == prefix;
    assert u[|prefix|..] == Escape(s, Component);
    UnescapeEscape(s, Component);
    ParseSerialize(q);
  }
}
