/** The text `JSON.stringify` prints, and its unique readability. */
module JsonText {
  import opened Utf16
  import opened Ordering
  import opened Strings
  import opened Json

  const QUOTE: CodeUnit := 0x22
  const COMMA: CodeUnit := 0x2c
  const COLON: CodeUnit := 0x3a
  const OPEN_ARRAY: CodeUnit := 0x5b
  const BACKSLASH: CodeUnit := 0x5c
  const CLOSE_ARRAY: CodeUnit := 0x5d
  const LOWER_U: CodeUnit := 0x75
  const OPEN_OBJECT: CodeUnit := 0x7b
  const CLOSE_OBJECT: CodeUnit := 0x7d

  // ----- strings -----

  function Hex4(u: CodeUnit): (h: Text)
    ensures |h| == 4
  {
    [HexDigit(u / 4096), HexDigit(u / 256 % 16), HexDigit(u / 16 % 16), HexDigit(u % 16)]
  }

  /** The letter of a two-character escape, or 0. */
  function ShortEscape(u: CodeUnit): CodeUnit {
    if u == QUOTE || u == BACKSLASH then u
    else if u == 0x08 then 0x62
    else if u == 0x09 then 0x74
    else if u == 0x0a then 0x6e
    else if u == 0x0c then 0x66
    else if u == 0x0d then 0x72
    else 0
  }

  predicate NeedsHex(u: CodeUnit) { u < 0x20 || IsHigh(u) || IsLow(u) }

  /** The first code point of `s` escaped, followed by `rest`. A surrogate
      without its partner is escaped too. */
  function EscapeHeadTo(s: Text, rest: Text): Text
    requires s != []
  {
    if Width(s, 0) == 2 then [s[0], s[1]] + rest
    else if ShortEscape(s[0]) != 0 then [BACKSLASH, ShortEscape(s[0])] + rest
    else if NeedsHex(s[0]) then [BACKSLASH, LOWER_U] + Hex4(s[0]) + rest
    else [s[0]] + rest
  }

  /** The escapes of `s`, the closing quote, then `rest`. */
  function EscapeTo(s: Text, rest: Text): Text {
    if s == [] then [QUOTE] + rest
    else EscapeHeadTo(s, EscapeTo(s[Width(s, 0)..], rest))
  }

  function QuoteTo(s: Text, rest: Text): Text { [QUOTE] + EscapeTo(s, rest) }

  lemma HexUnique(u: CodeUnit, v: CodeUnit)
    requires Hex4(u) == Hex4(v)
    ensures u == v
  {
    Digits(u);
    Digits(v);
    assert Hex4(u)[0] == Hex4(v)[0] && Hex4(u)[1] == Hex4(v)[1] && Hex4(u)[2] == Hex4(v)[2] && Hex4(u)[3] == Hex4(v)[3];
  }

  lemma Digits(u: int)
    requires 0 <= u < 0x1_0000
    ensures u == u / 4096 * 4096 + u / 256 % 16 * 256 + u / 16 % 16 * 16 + u % 16
  {
    assert u / 16 / 16 == u / 256 && u / 256 / 16 == u / 4096;
  }

  lemma HeadUnique(a: Text, r: Text, b: Text, s: Text)
    requires a != [] && b != [] && EscapeHeadTo(a, r) == EscapeHeadTo(b, s)
    ensures Width(a, 0) == Width(b, 0) && a[..Width(a, 0)] == b[..Width(b, 0)] && r == s
  {
    hide Hex4, Width;
    var x, y := EscapeHeadTo(a, r), EscapeHeadTo(b, s);
    HeadStarts(a, r);
    HeadStarts(b, s);
    if Width(a, 0) == 2 {
      assert a[..2] == [a[0], a[1]] && b[..2] == [b[0], b[1]] && r == x[2..] && s == y[2..];
    } else if ShortEscape(a[0]) != 0 {
      assert x[1] == ShortEscape(a[0]) && y[1] == ShortEscape(b[0]) && r == x[2..] && s == y[2..];
      assert a[..1] == [a[0]] && b[..1] == [b[0]];
    } else if NeedsHex(a[0]) {
      assert NeedsHex(b[0]) && ShortEscape(b[0]) == 0 && Width(b, 0) == 1;
      assert x[2..6] == Hex4(a[0]) && y[2..6] == Hex4(b[0]) && r == x[6..] && s == y[6..];
      HexUnique(a[0], b[0]);
      assert a[..1] == [a[0]] && b[..1] == [b[0]];
    } else {
      assert r == x[1..] && s == y[1..];
      assert a[..1] == [a[0]] && b[..1] == [b[0]];
    }
  }

  /** Which escape was used can be told from its first two characters. */
  lemma HeadStarts(a: Text, r: Text)
    requires a != []
    ensures var x := EscapeHeadTo(a, r);
            && x != [] && x[0] != QUOTE
            && (Width(a, 0) == 2 <==> IsHigh(x[0]))
            && (Width(a, 0) == 1 && (ShortEscape(a[0]) != 0 || NeedsHex(a[0])) <==> x[0] == BACKSLASH)
            && (x[0] == BACKSLASH ==> |x| > 1 && (x[1] == LOWER_U <==> ShortEscape(a[0]) == 0))
  {
  }

  lemma {:induction false} EscapeUnique(a: Text, r: Text, b: Text, s: Text)
    requires EscapeTo(a, r) == EscapeTo(b, s)
    ensures a == b && r == s
  {
    hide EscapeHeadTo;
    if a != [] { HeadStarts(a, EscapeTo(a[Width(a, 0)..], r)); }
    if b != [] { HeadStarts(b, EscapeTo(b[Width(b, 0)..], s)); }
    if a != [] && b != [] {
      var i, j := Width(a, 0), Width(b, 0);
      HeadUnique(a, EscapeTo(a[i..], r), b, EscapeTo(b[j..], s));
      EscapeUnique(a[i..], r, b[j..], s);
      assert a == a[..i] + a[i..] && b == b[..j] + b[j..];
    } else if a == [] && b == [] {
      assert r == EscapeTo(a, r)[1..] && s == EscapeTo(b, s)[1..];
    }
  }

  // ----- values -----

  predicate TokenChar(u: CodeUnit) { 0x30 <= u <= 0x39 || u in [0x2b, 0x2d, 0x2e, 0x45, 0x65] }

  /** The shape of a printed number, the only thing assumed of it. */
  predicate NumberToken(t: Text) {
    t != [] && (0x30 <= t[0] <= 0x39 || t[0] == 0x2d) && forall i :: 0 <= i < |t| ==> TokenChar(t[i])
  }

  /** The text of `j` followed by `rest`. */
  function PrintTo(j: Json, rest: Text): Text
    decreases j, 0
  {
    match j
    case Null => [0x6e, 0x75, 0x6c, 0x6c] + rest
    case Hole => [0x6e, 0x75, 0x6c, 0x6c] + rest
    case Bool(b) => (if b then [0x74, 0x72, 0x75, 0x65] else [0x66, 0x61, 0x6c, 0x73, 0x65]) + rest
    case Number(token) => token + rest
    case Str(s) => QuoteTo(s, rest)
    case Arr(items) => [OPEN_ARRAY] + ItemsTo(items, true, rest)
    case Obj(entries) => [OPEN_OBJECT] + EntriesTo(entries, true, rest)
  }

  function ItemsTo(items: seq<Json>, first: bool, rest: Text): Text
    decreases items, 1
  {
    if items == [] then [CLOSE_ARRAY] + rest
    else
      var text := PrintTo(items[0], ItemsTo(items[1..], false, rest));
      if first then text else [COMMA] + text
  }

  function EntriesTo(entries: seq<Keyed<Json>>, first: bool, rest: Text): Text
    decreases entries, 1
  {
    if entries == [] then [CLOSE_OBJECT] + rest
    else
      var text := QuoteTo(entries[0].key, [COLON] + PrintTo(entries[0].value, EntriesTo(entries[1..], false, rest)));
      if first then text else [COMMA] + text
  }

  function Print(j: Json): Text { PrintTo(j, []) }

  /** Well-shaped numbers and no holes: what a canonical value is made of. */
  ghost predicate Tokens(j: Json)
    decreases j
  {
    match j
    case Number(token) => NumberToken(token)
    case Arr(items) => forall i :: 0 <= i < |items| ==> Tokens(items[i])
    case Obj(entries) => forall i :: 0 <= i < |entries| ==> Tokens(entries[i].value)
    case Hole => false
    case _ => true
  }

  /** What follows a value: nothing a number token could run on into. */
  predicate Ends(rest: Text) { rest == [] || !TokenChar(rest[0]) }

  /** The first character tells the kind of value. */
  function Kind(u: CodeUnit): nat {
    if u == 0x6e then 1 else if u == 0x74 then 2 else if u == 0x66 then 3
    else if u == QUOTE then 5 else if u == OPEN_ARRAY then 6 else if u == OPEN_OBJECT then 7
    else if 0x30 <= u <= 0x39 || u == 0x2d then 4 else 0
  }

  function KindOf(j: Json): nat {
    match j
    case Null => 1 case Hole => 1 case Bool(b) => (if b then 2 else 3) case Number(_) => 4
    case Str(_) => 5 case Arr(_) => 6 case Obj(_) => 7
  }

  lemma PrintStarts(j: Json, rest: Text)
    requires Tokens(j)
    ensures PrintTo(j, rest) != [] && Kind(PrintTo(j, rest)[0]) == KindOf(j)
  {
  }

  /** How many leading characters could belong to a number token. */
  function TokenSpan(text: Text): nat {
    if text == [] || !TokenChar(text[0]) then 0 else 1 + TokenSpan(text[1..])
  }

  lemma {:induction false} SpanOfToken(a: Text, r: Text)
    requires (forall i :: 0 <= i < |a| ==> TokenChar(a[i])) && Ends(r)
    ensures TokenSpan(a + r) == |a|
  {
    hide TokenChar;
    if a == [] {
      assert a + r == r;
    } else {
      assert (a + r)[1..] == a[1..] + r;
      SpanOfToken(a[1..], r);
    }
  }

  lemma TokenUnique(a: Text, r: Text, b: Text, s: Text)
    requires NumberToken(a) && NumberToken(b) && Ends(r) && Ends(s) && a + r == b + s
    ensures a == b && r == s
  {
    SpanOfToken(a, r);
    SpanOfToken(b, s);
    assert a == (a + r)[..|a|] && b == (b + s)[..|b|] && r == (a + r)[|a|..] && s == (b + s)[|b|..];
  }

  /** Unique readability: a printed value can be read back in one way only. */
  lemma {:induction false} PrintUnique(a: Json, r: Text, b: Json, s: Text)
    requires Tokens(a) && Tokens(b) && Ends(r) && Ends(s) && PrintTo(a, r) == PrintTo(b, s)
    ensures a == b && r == s
    decreases a, 0
  {
    hide Kind, TokenChar, NumberToken, Ends, EscapeTo;
    var x, y := PrintTo(a, r), PrintTo(b, s);
    PrintStarts(a, r);
    PrintStarts(b, s);
    match a
    case Null => assert r == x[4..] && s == y[4..];
    case Bool(v) => assert r == x[(if v then 4 else 5)..] && s == y[(if v then 4 else 5)..];
    case Number(token) => TokenUnique(token, r, b.token, s);
    case Str(text) =>
      assert EscapeTo(text, r) == x[1..] && EscapeTo(b.s, s) == y[1..];
      EscapeUnique(text, r, b.s, s);
    case Arr(items) =>
      assert ItemsTo(items, true, r) == x[1..] && ItemsTo(b.items, true, s) == y[1..];
      ItemsUnique(items, r, b.items, s, true);
    case Obj(entries) =>
      assert EntriesTo(entries, true, r) == x[1..] && EntriesTo(b.entries, true, s) == y[1..];
      EntriesUnique(entries, r, b.entries, s, true);
  }

  /** Neither a separator nor a closing bracket extends a number or starts a value. */
  lemma Punctuation(u: CodeUnit, rest: Text)
    requires u == COMMA || u == CLOSE_ARRAY || u == CLOSE_OBJECT
    ensures Ends([u] + rest) && Kind(u) == 0
  {
  }

  lemma ItemsStart(items: seq<Json>, first: bool, rest: Text)
    requires forall i :: 0 <= i < |items| ==> Tokens(items[i])
    ensures var x := ItemsTo(items, first, rest);
            && x != [] && (x[0] == CLOSE_ARRAY <==> items == [])
            && (!first ==> Ends(x))
  {
    hide Kind, TokenChar, PrintTo;
    Punctuation(CLOSE_ARRAY, rest);
    if items != [] {
      var more := ItemsTo(items[1..], false, rest);
      PrintStarts(items[0], more);
      Punctuation(COMMA, PrintTo(items[0], more));
    }
  }

  lemma {:induction false} ItemsUnique(a: seq<Json>, r: Text, b: seq<Json>, s: Text, first: bool)
    requires (forall i :: 0 <= i < |a| ==> Tokens(a[i])) && (forall i :: 0 <= i < |b| ==> Tokens(b[i]))
    requires ItemsTo(a, first, r) == ItemsTo(b, first, s)
    ensures a == b && r == s
    decreases a, 1
  {
    hide PrintTo, Tokens, Ends;
    ItemsStart(a, first, r);
    ItemsStart(b, first, s);
    var x, y := ItemsTo(a, first, r), ItemsTo(b, first, s);
    if a == [] {
      assert r == x[1..] && s == y[1..];
    } else {
      var p, q := ItemsTo(a[1..], false, r), ItemsTo(b[1..], false, s);
      ItemsStart(a[1..], false, r);
      ItemsStart(b[1..], false, s);
      if !first { assert PrintTo(a[0], p) == x[1..] && PrintTo(b[0], q) == y[1..]; }
      PrintUnique(a[0], p, b[0], q);
      ItemsUnique(a[1..], r, b[1..], s, false);
      assert a == [a[0]] + a[1..] && b == [b[0]] + b[1..];
    }
  }

  lemma EntriesStart(entries: seq<Keyed<Json>>, first: bool, rest: Text)
    ensures var x := EntriesTo(entries, first, rest);
            && x != [] && (x[0] == CLOSE_OBJECT <==> entries == [])
            && (!first ==> Ends(x))
  {
    hide PrintTo, EscapeTo;
  }

  lemma {:induction false} EntriesUnique(a: seq<Keyed<Json>>, r: Text, b: seq<Keyed<Json>>, s: Text, first: bool)
    requires (forall i :: 0 <= i < |a| ==> Tokens(a[i].value)) && (forall i :: 0 <= i < |b| ==> Tokens(b[i].value))
    requires EntriesTo(a, first, r) == EntriesTo(b, first, s)
    ensures a == b && r == s
    decreases a, 1
  {
    hide PrintTo, Tokens, Ends, EscapeTo;
    EntriesStart(a, first, r);
    EntriesStart(b, first, s);
    var x, y := EntriesTo(a, first, r), EntriesTo(b, first, s);
    if a == [] {
      assert r == x[1..] && s == y[1..];
    } else {
      var p, q := EntriesTo(a[1..], false, r), EntriesTo(b[1..], false, s);
      EntriesStart(a[1..], false, r);
      EntriesStart(b[1..], false, s);
      var u, v := [COLON] + PrintTo(a[0].value, p), [COLON] + PrintTo(b[0].value, q);
      if first {
        assert EscapeTo(a[0].key, u) == x[1..] && EscapeTo(b[0].key, v) == y[1..];
      } else {
        assert EscapeTo(a[0].key, u) == x[2..] && EscapeTo(b[0].key, v) == y[2..];
      }
      EscapeUnique(a[0].key, u, b[0].key, v);
      assert PrintTo(a[0].value, p) == u[1..] && PrintTo(b[0].value, q) == v[1..];
      PrintUnique(a[0].value, p, b[0].value, q);
      EntriesUnique(a[1..], r, b[1..], s, false);
      assert a == [a[0]] + a[1..] && b == [b[0]] + b[1..];
    }
  }
}
