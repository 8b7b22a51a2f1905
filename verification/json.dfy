/**
 * The decoded JSON values that the engine stores in its `*_json` columns
 * and receives from forms, with the two Python conversions the core applies
 * to them: truthiness (`if x`, `x or ""`) and `str(x)`.
 */
module Json {
  import opened Base
  import opened Text

  datatype Json =
    | JNull
    | JBool(b: bool)
    | JInt(i: int)
    | JStr(s: string)
    | JList(items: seq<Json>)
    | JObj(fields: map<string, Json>)

  /** Python truthiness of a decoded value. */
  predicate Truthy(v: Json)
  {
    match v
    case JNull => false
    case JBool(b) => b
    case JInt(i) => i != 0
    case JStr(s) => s != []
    case JList(items) => items != []
    case JObj(fields) => fields != map[]
  }

  // ---------------------------------------------------------------------------
  // `repr` of strings

  /** The quote `repr` puts around `s`: double quotes only when `s` holds a single quote and no double quote. */
  function QuoteFor(s: string): (q: char)
    ensures q == '\'' || q == '"'
    ensures q == '"' <==> '\'' in s && '"' !in s
  {
    if '\'' in s && '"' !in s then '"' else '\''
  }

  function HexDigit(d: int): (c: char)
    requires 0 <= d < 16
    ensures '0' <= c <= '9' || 'a' <= c <= 'f'
  {
    if d < 10 then ('0' as int + d) as char else ('a' as int + d - 10) as char
  }

  /** The characters below U+0100 that `repr` writes as a `\xNN` escape: controls, DEL to NBSP, and the soft hyphen. */
  predicate HexEscaped(c: char)
  {
    c < ' ' || ('\U{007F}' <= c <= '\U{00A0}') || c == '\U{00AD}'
  }

  /** One character as `repr` writes it inside quotes `q`. */
  function EscapeChar(c: char, q: char): (r: string)
    ensures r != []
    ensures r == [c] <==> c != '\\' && c != q && !HexEscaped(c)
    ensures r != [c] ==> r[0] == '\\'
  {
    if c == '\\' then "\\\\"
    else if c == q then ['\\', q]
    else if c == '\t' then "\\t"
    else if c == '\n' then "\\n"
    else if c == '\r' then "\\r"
    else if HexEscaped(c) then ['\\', 'x', HexDigit(c as int / 16), HexDigit(c as int % 16)]
    else [c]
  }

  function Escape(s: string, q: char): (r: string)
    ensures |r| >= |s|
  {
    if s == [] then [] else EscapeChar(s[0], q) + Escape(s[1..], q)
  }

  /** A string `repr` copies unchanged between its quotes. */
  predicate PlainText(s: string)
  {
    forall i :: 0 <= i < |s| ==> s[i] != '\\' && s[i] != '\'' && s[i] != '"' && !HexEscaped(s[i])
  }

  /** A plain string is its own escape. */
  lemma {:induction false} EscapePlain(s: string, q: char)
    requires PlainText(s) && (q == '\'' || q == '"')
    ensures Escape(s, q) == s
  {
    if s != [] {
      assert PlainText(s[1..]) by {
        forall i | 0 <= i < |s[1..]| ensures s[1..][i] == s[i + 1] { }
      }
      EscapePlain(s[1..], q);
      assert s == [s[0]] + s[1..];
    }
  }

  /** `repr(s)` for a string: quoted, with backslashes, the quote in use and unprintable characters escaped. */
  function StrRepr(s: string): (r: string)
    ensures |r| >= |s| + 2 && r[0] == QuoteFor(s) && r[|r| - 1] == QuoteFor(s)
    ensures PlainText(s) ==> r == "'" + s + "'"
  {
    var q := QuoteFor(s);
    if PlainText(s) then
      EscapePlain(s, q);
      [q] + Escape(s, q) + [q]
    else
      [q] + Escape(s, q) + [q]
  }

  // ---------------------------------------------------------------------------
  // `repr` of containers

  /** Lexicographic order on strings by code point, as Python compares them. */
  predicate StrBelow(a: string, b: string)
  {
    a == [] || (b != [] && (a[0] < b[0] || (a[0] == b[0] && StrBelow(a[1..], b[1..]))))
  }

  lemma StrBelowTotal(a: string, b: string)
    ensures StrBelow(a, b) || StrBelow(b, a)
  {
  }

  lemma StrBelowTransitive(a: string, b: string, c: string)
    requires StrBelow(a, b) && StrBelow(b, c)
    ensures StrBelow(a, c)
  {
  }

  lemma {:induction false} StrBelowAntisymmetric(a: string, b: string)
    requires StrBelow(a, b) && StrBelow(b, a)
    ensures a == b
  {
    if a != [] {
      StrBelowAntisymmetric(a[1..], b[1..]);
      assert a == [a[0]] + a[1..] && b == [b[0]] + b[1..];
    }
  }

  /** Every non-empty finite set of strings has a least element. */
  lemma LeastKeyExists(s: set<string>)
    requires s != {}
    ensures exists k :: k in s && forall y :: y in s ==> StrBelow(k, y)
  {
    var k := LeastOf(s);
  }

  lemma {:induction false} LeastOf(s: set<string>) returns (k: string)
    requires s != {}
    ensures k in s && forall y :: y in s ==> StrBelow(k, y)
    decreases |s|
  {
    var x :| x in s;
    var rest := s - {x};
    StrBelowTotal(x, x);
    if rest == {} {
      assert s == {x};
      k := x;
    } else {
      var m := LeastOf(rest);
      StrBelowTotal(x, m);
      if StrBelow(x, m) {
        forall y | y in s ensures StrBelow(x, y) {
          if y != x {
            assert y in rest;
            StrBelowTransitive(x, m, y);
          }
        }
        k := x;
      } else {
        k := m;
      }
    }
  }

  function LeastKey(s: set<string>): (k: string)
    requires s != {}
    ensures k in s && forall y :: y in s ==> StrBelow(k, y)
  {
    LeastKeyExists(s);
    assert forall a, b :: a in s && b in s && StrBelow(a, b) && StrBelow(b, a) ==> a == b by {
      forall a, b | a in s && b in s && StrBelow(a, b) && StrBelow(b, a) ensures a == b {
        StrBelowAntisymmetric(a, b);
      }
    }
    var k :| k in s && forall y :: y in s ==> StrBelow(k, y);
    k
  }

  /** The keys of a dictionary in ascending order. */
  function SortedKeys(s: set<string>): (r: seq<string>)
    ensures |r| == |s|
    ensures forall k :: k in r <==> k in s
    decreases |s|
  {
    if s == {} then []
    else
      var k := LeastKey(s);
      [k] + SortedKeys(s - {k})
  }

  /**
   * A value inside a dictionary: scalars and strings as `repr` writes them;
   * a nested list or dictionary is marked by its brackets only.
   */
  function ValueRepr(v: Json): (r: string)
    ensures r != []
  {
    match v
    case JNull => "None"
    case JBool(b) => if b then "True" else "False"
    case JInt(i) => IntToString(i)
    case JStr(s) => StrRepr(s)
    case JList(_) => "[...]"
    case JObj(_) => "{...}"
  }

  /** `repr(v)`; a dictionary lists its entries in ascending key order. */
  function Repr(v: Json): (r: string)
    ensures r != []
    ensures v.JStr? ==> r == StrRepr(v.s)
    ensures v.JList? ==> |r| >= 2 && r[0] == '[' && r[|r| - 1] == ']'
    ensures v.JObj? ==> |r| >= 2 && r[0] == '{' && r[|r| - 1] == '}'
  {
    match v
    case JNull => "None"
    case JBool(b) => if b then "True" else "False"
    case JInt(i) => IntToString(i)
    case JStr(s) => StrRepr(s)
    case JList(items) => "[" + Join(", ", seq(|items|, i requires 0 <= i < |items| => Repr(items[i]))) + "]"
    case JObj(fields) =>
      var ks := SortedKeys(fields.Keys);
      "{" + Join(", ", seq(|ks|, i requires 0 <= i < |ks| => StrRepr(ks[i]) + ": " + ValueRepr(fields[ks[i]]))) + "}"
  }

  /** `str(v)`: a string is returned as it is, anything else as its `repr`. */
  function PyStr(v: Json): (r: string)
    ensures v.JStr? ==> r == v.s
    ensures !v.JStr? ==> r == Repr(v) && r != []
  {
    if v.JStr? then v.s else Repr(v)
  }

  /** `d.get(key, default)` on a dictionary. */
  function Get(fields: map<string, Json>, key: string, default: Json): (r: Json)
    ensures key in fields ==> r == fields[key]
    ensures key !in fields ==> r == default
  {
    if key in fields then fields[key] else default
  }

  /** `str(x or "")` */
  function StrOrEmpty(v: Json): (r: string)
    ensures !Truthy(v) ==> r == []
    ensures Truthy(v) ==> r == PyStr(v) && r != []
  {
    if Truthy(v) then PyStr(v) else ""
  }
}
