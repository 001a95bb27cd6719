/**
 * Values produced by `JSON.parse`, and the JavaScript operations the analyzer
 * applies to them: truthiness (`!v`, `a || b`), property access (`v.name`,
 * `undefined` when absent) and the string conversion a value undergoes when it
 * is used as an object key (`obj[v]`).
 */
module Json {
  import opened Wrappers

  /** A parsed JSON value. Numbers are integers; fractional numbers are not modelled. */
  datatype Json =
    | JNull
    | JBool(b: bool)
    | JNumber(n: int)
    | JString(s: string)
    | JArray(items: seq<Json>)
    | JObject(members: seq<Member>)

  /** One `"key": value` pair of an object, in the order written in the text. */
  datatype Member = Member(key: string, value: Json)

  /** JavaScript truthiness (`!!v`); `JSON.parse` never yields `NaN`. */
  predicate Truthy(v: Json) {
    match v
    case JNull => false
    case JBool(b) => b
    case JNumber(n) => n != 0
    case JString(s) => s != ""
    case JArray(_) => true
    case JObject(_) => true
  }

  /** `typeof v === 'object'` for a truthy value: an object or an array, the only values that can carry properties of their own. */
  predicate IsObjectLike(v: Json) {
    v.JObject? || v.JArray?
  }

  /** An absent property (`undefined`) is falsy; a present one is as truthy as its value. */
  predicate TruthyProp(p: Option<Json>) {
    p.Some? && Truthy(p.value)
  }

  /**
   * `v.key` for the property names the analyzer reads: only objects carry
   * them, and of duplicate keys `JSON.parse` keeps the last.
   */
  function Prop(v: Json, key: string): (r: Option<Json>)
    ensures r.Some? <==> v.JObject? && exists i | 0 <= i < |v.members| :: v.members[i].key == key
    ensures r.Some? ==> exists i | 0 <= i < |v.members| ::
      v.members[i] == Member(key, r.value) && forall j | i < j < |v.members| :: v.members[j].key != key
  {
    if !v.JObject? then None
    else
      var i := LastIndex(v.members, key);
      if i == -1 then None else Some(v.members[i].value)
  }

  /** The index of the last member named `key`, or -1. */
  function LastIndex(ms: seq<Member>, key: string): (r: int)
    ensures -1 <= r < |ms|
    ensures r == -1 ==> forall i | 0 <= i < |ms| :: ms[i].key != key
    ensures r != -1 ==> ms[r].key == key && forall j | r < j < |ms| :: ms[j].key != key
  {
    if ms == [] then -1
    else if ms[|ms| - 1].key == key then |ms| - 1
    else LastIndex(ms[..|ms| - 1], key)
  }

  // ---------------------------------------------------------------------------
  // String conversion (`String(v)`), as applied to a value used as an object key
  // ---------------------------------------------------------------------------

  function DigitChar(d: nat): (c: char)
    requires d < 10
    ensures '0' <= c <= '9'
  {
    "0123456789"[d]
  }

  /** Decimal digits of a natural number, most significant first. */
  function NatToDecimal(n: nat): (r: string)
    ensures |r| >= 1
    ensures forall i | 0 <= i < |r| :: '0' <= r[i] <= '9'
  {
    if n < 10 then [DigitChar(n)] else NatToDecimal(n / 10) + [DigitChar(n % 10)]
  }

  /** `String(n)` for an integer. */
  function IntToDecimal(n: int): (r: string)
    ensures |r| >= 1
    ensures forall i | 0 <= i < |r| :: r[i] == '-' || '0' <= r[i] <= '9'
  {
    if n < 0 then "-" + NatToDecimal(-n) else NatToDecimal(n)
  }

  /**
   * `String(v)`: the key under which `obj[v] = ...` stores. Arrays join their
   * elements with commas (`null` elements become empty); objects become
   * `"[object Object]"`.
   */
  function ToKey(v: Json): string
    decreases v, 1
  {
    match v
    case JNull => "null"
    case JBool(b) => if b then "true" else "false"
    case JNumber(n) => IntToDecimal(n)
    case JString(s) => s
    case JArray(_) => JoinFrom(v, 0)
    case JObject(_) => "[object Object]"
  }

  /** `items.slice(i).join(",")` for the items of array `v`. */
  function JoinFrom(v: Json, i: nat): string
    requires v.JArray? && i <= |v.items|
    decreases v, 0, |v.items| - i
  {
    if i == |v.items| then ""
    else
      (if i > 0 then "," else "")
      + (if v.items[i].JNull? then "" else ToKey(v.items[i]))
      + JoinFrom(v, i + 1)
  }

  // ---------------------------------------------------------------------------
  // JSON text of a value (the inverse direction of `JSON.parse`)
  // ---------------------------------------------------------------------------

  function HexDigit(d: nat): char
    requires d < 16
  {
    "0123456789abcdef"[d]
  }

  /** The JSON escape of one character of a string literal's body. */
  function EscapeChar(c: char): (r: string)
    ensures |r| >= 1
  {
    if c == '"' || c == '\\' then ['\\', c]
    else if c < ' ' then "\\u00" + [HexDigit(c as int / 16), HexDigit(c as int % 16)]
    else [c]
  }

  function EscapeChars(s: string): string {
    if s == [] then "" else EscapeChar(s[0]) + EscapeChars(s[1..])
  }

  /** A JSON string literal: the escaped characters between double quotes. */
  function Quote(s: string): string {
    "\"" + EscapeChars(s) + "\""
  }

  /** The JSON text of a value, without insignificant whitespace. */
  function Serialize(v: Json): string
    decreases v, 1
  {
    match v
    case JNull => "null"
    case JBool(b) => if b then "true" else "false"
    case JNumber(n) => IntToDecimal(n)
    case JString(s) => Quote(s)
    case JArray(_) => "[" + ItemsFrom(v, 0) + "]"
    case JObject(_) => "{" + MembersFrom(v, 0) + "}"
  }

  /** The comma-separated texts of the items of array `v` from index `i` on. */
  function ItemsFrom(v: Json, i: nat): string
    requires v.JArray? && i <= |v.items|
    decreases v, 0, |v.items| - i
  {
    if i == |v.items| then ""
    else (if i > 0 then "," else "") + Serialize(v.items[i]) + ItemsFrom(v, i + 1)
  }

  /** The comma-separated `"key":value` texts of the members of object `v` from index `i` on. */
  function MembersFrom(v: Json, i: nat): string
    requires v.JObject? && i <= |v.members|
    decreases v, 0, |v.members| - i
  {
    if i == |v.members| then ""
    else
      (if i > 0 then "," else "")
      + Quote(v.members[i].key) + ":" + Serialize(v.members[i].value)
      + MembersFrom(v, i + 1)
  }

  // ---------------------------------------------------------------------------
  // JSON text as written
  // ---------------------------------------------------------------------------

  /**
   * JSON text cut into the pieces that matter to a reader of braces: bare
   * stretches (whitespace, numbers, `true`, `false`, `null`, brackets, commas,
   * colons), string literals kept as their raw bodies between the quotes,
   * and objects with the pieces between their braces. Any JSON text, with
   * any whitespace between tokens and any escapes in its strings, is the
   * text of well-formed pieces.
   */
  datatype Syntax = Bare(raw: string) | Literal(body: string) | Braced(parts: seq<Syntax>)

  /** A character that JSON text holds outside string literals, other than an object's braces. */
  predicate BareChar(c: char) {
    c != '"' && c != '\\' && c != '{' && c != '}'
  }

  /**
   * The raw body of a string literal: characters other than `"` and `\`,
   * and a backslash followed by any one character (`\n`, `\/`, `\"`, the
   * `u` that starts `\u003c`, ...).
   */
  predicate LiteralBody(x: string)
    decreases |x|
  {
    x == []
    || (x[0] != '"' && x[0] != '\\' && LiteralBody(x[1..]))
    || (|x| >= 2 && x[0] == '\\' && LiteralBody(x[2..]))
  }

  predicate WellFormedPiece(t: Syntax)
    decreases t
  {
    match t
    case Bare(raw) => forall k | 0 <= k < |raw| :: BareChar(raw[k])
    case Literal(body) => LiteralBody(body)
    case Braced(parts) => WellFormedPieces(parts)
  }

  predicate WellFormedPieces(ps: seq<Syntax>)
    decreases ps
  {
    forall i | 0 <= i < |ps| :: WellFormedPiece(ps[i])
  }

  /** The text of one piece. */
  function Text(t: Syntax): string
    decreases t
  {
    match t
    case Bare(raw) => raw
    case Literal(body) => "\"" + body + "\""
    case Braced(parts) => "{" + Texts(parts) + "}"
  }

  /** The text of pieces written one after another. */
  function Texts(ps: seq<Syntax>): string
    decreases ps
  {
    if ps == [] then "" else Text(ps[0]) + Texts(ps[1..])
  }

  lemma {:induction false} TextsAppend(a: seq<Syntax>, b: seq<Syntax>)
    ensures Texts(a + b) == Texts(a) + Texts(b)
    decreases |a|
  {
    if a == [] {
      assert a + b == b;
    } else {
      assert (a + b)[0] == a[0] && (a + b)[1..] == a[1..] + b;
      TextsAppend(a[1..], b);
    }
  }

  lemma WellFormedPiecesAppend(a: seq<Syntax>, b: seq<Syntax>)
    requires WellFormedPieces(a) && WellFormedPieces(b)
    ensures WellFormedPieces(a + b)
  {
    forall i | 0 <= i < |a + b|
      ensures WellFormedPiece((a + b)[i])
    {
      if i < |a| {
        assert (a + b)[i] == a[i];
      } else {
        assert (a + b)[i] == b[i - |a|];
      }
    }
  }

  /** A member's key and colon. */
  lemma KeyPiecesText(k: string)
    ensures Texts([Literal(EscapeChars(k)), Bare(":")]) == Quote(k) + ":"
    ensures WellFormedPieces([Literal(EscapeChars(k)), Bare(":")])
  {
    var key := [Literal(EscapeChars(k)), Bare(":")];
    EscapeCharsBody(k);
    assert key[1..] == [Bare(":")] && key[1..][1..] == [];
    assert Texts(key[1..]) == ":";
  }

  lemma {:induction false} LiteralBodyAppend(a: string, b: string)
    requires LiteralBody(a) && LiteralBody(b)
    ensures LiteralBody(a + b)
    decreases |a|
  {
    if a == [] {
      assert a + b == b;
    } else if a[0] != '"' && a[0] != '\\' && LiteralBody(a[1..]) {
      assert (a + b)[1..] == a[1..] + b;
      LiteralBodyAppend(a[1..], b);
    } else {
      assert (a + b)[2..] == a[2..] + b;
      LiteralBodyAppend(a[2..], b);
    }
  }

  /** The escapes `Serialize` writes form a literal body. */
  lemma {:induction false} EscapeCharsBody(s: string)
    ensures LiteralBody(EscapeChars(s))
    decreases |s|
  {
    if s != [] {
      EscapeCharBody(s[0]);
      EscapeCharsBody(s[1..]);
      LiteralBodyAppend(EscapeChar(s[0]), EscapeChars(s[1..]));
    }
  }

  lemma EscapeCharBody(c: char)
    ensures LiteralBody(EscapeChar(c))
  {
    var e := EscapeChar(c);
    if c == '"' || c == '\\' {
      assert e[2..] == [] && LiteralBody(e[2..]);
    } else if c < ' ' {
      var hex := [HexDigit(c as int / 16), HexDigit(c as int % 16)];
      HexDigitBare(c as int / 16);
      HexDigitBare(c as int % 16);
      assert e[2..] == "00" + hex;
      assert LiteralBody(hex[1..][1..]) && LiteralBody(hex[1..]) && LiteralBody(hex);
      assert LiteralBody(e[2..][2..]) && LiteralBody(e[2..][1..]) && LiteralBody(e[2..]);
    } else {
      assert e[1..] == [] && LiteralBody(e[1..]);
    }
  }

  lemma HexDigitBare(d: nat)
    requires d < 16
    ensures BareChar(HexDigit(d))
  {
    assert forall k | 0 <= k < 16 :: BareChar("0123456789abcdef"[k]);
  }

  /** The pieces of `Serialize(v)`. */
  function Pieces(v: Json): seq<Syntax>
    decreases v, 1
  {
    match v
    case JNull => [Bare("null")]
    case JBool(b) => [Bare(if b then "true" else "false")]
    case JNumber(n) => [Bare(IntToDecimal(n))]
    case JString(s) => [Literal(EscapeChars(s))]
    case JArray(_) => [Bare("[")] + ItemPieces(v, 0) + [Bare("]")]
    case JObject(_) => [Braced(MemberPieces(v, 0))]
  }

  function ItemPieces(v: Json, i: nat): seq<Syntax>
    requires v.JArray? && i <= |v.items|
    decreases v, 0, |v.items| - i
  {
    if i == |v.items| then []
    else (if i > 0 then [Bare(",")] else []) + Pieces(v.items[i]) + ItemPieces(v, i + 1)
  }

  function MemberPieces(v: Json, i: nat): seq<Syntax>
    requires v.JObject? && i <= |v.members|
    decreases v, 0, |v.members| - i
  {
    if i == |v.members| then []
    else
      (if i > 0 then [Bare(",")] else [])
      + [Literal(EscapeChars(v.members[i].key)), Bare(":")] + Pieces(v.members[i].value)
      + MemberPieces(v, i + 1)
  }

  /** The compact text `Serialize` prints is the text of well-formed pieces. */
  lemma {:induction false} PiecesText(v: Json)
    ensures Texts(Pieces(v)) == Serialize(v) && WellFormedPieces(Pieces(v))
    decreases v, 1, 1
  {
    match v
    case JNull =>
    case JBool(b) =>
    case JNumber(n) => DecimalBare(n);
    case JString(s) => EscapeCharsBody(s);
    case JArray(_) => ArrayPiecesText(v);
    case JObject(_) => MemberPiecesText(v, 0);
  }

  lemma {:induction false} ArrayPiecesText(v: Json)
    requires v.JArray?
    ensures Texts(Pieces(v)) == Serialize(v) && WellFormedPieces(Pieces(v))
    decreases v, 1, 0
  {
    ItemPiecesText(v, 0);
    TextsAppend([Bare("[")], ItemPieces(v, 0));
    TextsAppend([Bare("[")] + ItemPieces(v, 0), [Bare("]")]);
    WellFormedPiecesAppend([Bare("[")], ItemPieces(v, 0));
    WellFormedPiecesAppend([Bare("[")] + ItemPieces(v, 0), [Bare("]")]);
  }

  lemma DecimalBare(n: int)
    ensures forall k | 0 <= k < |IntToDecimal(n)| :: BareChar(IntToDecimal(n)[k])
  {
  }

  lemma {:induction false} ItemPiecesText(v: Json, i: nat)
    requires v.JArray? && i <= |v.items|
    ensures Texts(ItemPieces(v, i)) == ItemsFrom(v, i) && WellFormedPieces(ItemPieces(v, i))
    decreases v, 0, |v.items| - i
  {
    if i < |v.items| {
      var sep: seq<Syntax> := if i > 0 then [Bare(",")] else [];
      PiecesText(v.items[i]);
      ItemPiecesText(v, i + 1);
      TextsAppend(sep, Pieces(v.items[i]));
      TextsAppend(sep + Pieces(v.items[i]), ItemPieces(v, i + 1));
    }
  }

  lemma {:induction false} MemberPiecesText(v: Json, i: nat)
    requires v.JObject? && i <= |v.members|
    ensures Texts(MemberPieces(v, i)) == MembersFrom(v, i) && WellFormedPieces(MemberPieces(v, i))
    decreases v, 0, |v.members| - i
  {
    if i < |v.members| {
      PiecesText(v.members[i].value);
      MemberPiecesText(v, i + 1);
      MemberPiecesStep(v, i);
    }
  }

  /** One member's pieces in front of the pieces of the members after it. */
  lemma {:induction false} MemberPiecesStep(v: Json, i: nat)
    requires v.JObject? && i < |v.members|
    requires Texts(Pieces(v.members[i].value)) == Serialize(v.members[i].value)
    requires WellFormedPieces(Pieces(v.members[i].value))
    requires Texts(MemberPieces(v, i + 1)) == MembersFrom(v, i + 1) && WellFormedPieces(MemberPieces(v, i + 1))
    ensures Texts(MemberPieces(v, i)) == MembersFrom(v, i) && WellFormedPieces(MemberPieces(v, i))
  {
    var m := v.members[i];
    var sep: seq<Syntax> := if i > 0 then [Bare(",")] else [];
    var comma := if i > 0 then "," else "";
    var key := [Literal(EscapeChars(m.key)), Bare(":")];
    KeyPiecesText(m.key);
    SeparatorText(i);
    MemberUnfold(v, i);
    JoinFour(sep, key, Pieces(m.value), MemberPieces(v, i + 1),
      comma, Quote(m.key) + ":", Serialize(m.value), MembersFrom(v, i + 1));
  }

  lemma SeparatorText(i: nat)
    ensures Texts(if i > 0 then [Bare(",")] else []) == (if i > 0 then "," else "")
    ensures WellFormedPieces(if i > 0 then [Bare(",")] else [])
  {
    if i > 0 {
      assert [Bare(",")][1..] == [];
    }
  }

  /** One member's pieces and text, split the same way. */
  lemma MemberUnfold(v: Json, i: nat)
    requires v.JObject? && i < |v.members|
    ensures MemberPieces(v, i)
      == (if i > 0 then [Bare(",")] else []) + [Literal(EscapeChars(v.members[i].key)), Bare(":")]
      + Pieces(v.members[i].value) + MemberPieces(v, i + 1)
    ensures MembersFrom(v, i)
      == (if i > 0 then "," else "") + (Quote(v.members[i].key) + ":")
      + Serialize(v.members[i].value) + MembersFrom(v, i + 1)
  {
  }

  /** Four runs of well-formed pieces, one after another, print their four texts. */
  lemma JoinFour(a: seq<Syntax>, b: seq<Syntax>, c: seq<Syntax>, d: seq<Syntax>, ta: string, tb: string, tc: string, td: string)
    requires Texts(a) == ta && Texts(b) == tb && Texts(c) == tc && Texts(d) == td
    requires WellFormedPieces(a) && WellFormedPieces(b) && WellFormedPieces(c) && WellFormedPieces(d)
    ensures Texts(a + b + c + d) == ta + tb + tc + td
    ensures WellFormedPieces(a + b + c + d)
  {
    TextsAppend(a, b);
    TextsAppend(a + b, c);
    TextsAppend(a + b + c, d);
    WellFormedPiecesAppend(a, b);
    WellFormedPiecesAppend(a + b, c);
    WellFormedPiecesAppend(a + b + c, d);
  }
}
