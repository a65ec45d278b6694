/** The shell-safe, tag-safe rendering of a socket path, against a reader that
    follows the Bash Reference Manual (sections 3.1.2.2 and 3.1.2.4) for the
    quoting and section 3 of RFC 3629 for the bytes. */
module ShellPath {
  import opened Strings
  import opened Utf16
  import opened Utf8
  import opened Options

  const QUOTE: CodeUnit := 0x27
  const DOLLAR: CodeUnit := 0x24
  const BACKSLASH: CodeUnit := 0x5C
  const LOWER_X: CodeUnit := 0x78

  predicate Digit(u: CodeUnit) { 0x30 <= u <= 0x39 }

  /** The conservative set that needs no escape: `[A-Za-z0-9/._-]`. */
  predicate SafeChar(u: CodeUnit) {
    Digit(u) || 0x41 <= u <= 0x5A || 0x61 <= u <= 0x7A || u == 0x2F || u == 0x2E || u == 0x5F || u == 0x2D
  }

  function HexEscape(b: Byte): Text { [BACKSLASH, LOWER_X, HexDigit(b / 16), HexDigit(b % 16)] }

  function HexEscapes(bytes: seq<Byte>): Text {
    if bytes == [] then [] else HexEscape(bytes[0]) + HexEscapes(bytes[1..])
  }

  predicate AllSafe(s: Text) { forall u :: u in s ==> SafeChar(u) }

  function EscapeBody(s: Text): Text {
    if s == [] then []
    else (if SafeChar(s[0]) then [s[0]] else HexEscapes(EncodeCodePoint(HeadCodePoint(s))))
         + EscapeBody(s[Width(s, 0)..])
  }

  function Escape(s: Text): Text {
    if AllSafe(s) then [QUOTE] + s + [QUOTE] else [DOLLAR, QUOTE] + EscapeBody(s) + [QUOTE]
  }

  lemma {:induction false} HexEscapesAppend(a: seq<Byte>, b: Byte)
    ensures HexEscapes(a + [b]) == HexEscapes(a) + HexEscape(b)
  {
    if a == [] {
      assert a + [b] == [b];
    } else {
      assert (a + [b])[1..] == a[1..] + [b];
      HexEscapesAppend(a[1..], b);
    }
  }

  method EscapeBytes(bytes: seq<Byte>) returns (escaped: Text)
    ensures escaped == HexEscapes(bytes)
  {
    escaped := [];
    for j := 0 to |bytes|
      invariant escaped == HexEscapes(bytes[..j])
    {
      HexEscapesAppend(bytes[..j], bytes[j]);
      assert bytes[..j + 1] == bytes[..j] + [bytes[j]];
      escaped := escaped + HexEscape(bytes[j]);
    }
    assert bytes[..|bytes|] == bytes;
  }

  method HasUnsafeByte(value: Text) returns (found: bool)
    ensures found <==> !AllSafe(value)
  {
    for i := 0 to |value|
      invariant AllSafe(value[..i])
    {
      if !SafeChar(value[i]) {
        return true;
      }
      assert value[..i + 1] == value[..i] + [value[i]];
    }
    assert value[..|value|] == value;
    return false;
  }

  /** Render the code point at the head of `rest`. */
  method EscapeHead(rest: Text) returns (piece: Text)
    requires rest != []
    ensures EscapeBody(rest) == piece + EscapeBody(rest[Width(rest, 0)..])
  {
    hide EncodeCodePoint, HeadCodePoint, HexEscapes, SafeChar;
    if SafeChar(rest[0]) {
      piece := [rest[0]];
    } else {
      piece := EscapeBytes(EncodeCodePoint(HeadCodePoint(rest)));
    }
  }

  ghost predicate Escaped(done: Text, rest: Text, value: Text) {
    done + EscapeBody(rest) == EscapeBody(value)
  }

  lemma EscapedStep(done: Text, piece: Text, rest: Text, value: Text)
    requires rest != [] && Escaped(done, rest, value)
    requires EscapeBody(rest) == piece + EscapeBody(rest[Width(rest, 0)..])
    ensures Escaped(done + piece, rest[Width(rest, 0)..], value)
  {
    hide EscapeBody, Width;
    var tail := EscapeBody(rest[Width(rest, 0)..]);
    assert (done + piece) + tail == done + (piece + tail);
  }

  lemma EscapeNothing()
    ensures EscapeBody([]) == []
  {
  }

  /** The two passes of the renderer: look for an unsafe unit, and if there is
      one, escape code point by code point. */
  method EscapeShellPath(value: Text) returns (out: Text)
    ensures out == Escape(value)
  {
    var hasUnsafeByte := HasUnsafeByte(value);
    if !hasUnsafeByte {
      return [QUOTE] + value + [QUOTE];
    }
    hide EscapeBody, AllSafe, Width;
    var escaped: Text := [];
    var rest := value;
    assert Escaped([], value, value);
    while rest != []
      invariant Escaped(escaped, rest, value)
      decreases |rest|
    {
      var piece := EscapeHead(rest);
      EscapedStep(escaped, piece, rest, value);
      escaped := escaped + piece;
      rest := rest[Width(rest, 0)..];
    }
    EscapeNothing();
    return [DOLLAR, QUOTE] + escaped + [QUOTE];
  }

  // ----- the reader -----

  function HexValue(u: CodeUnit): Option<int> {
    if Digit(u) then Some(u - 0x30)
    else if 0x61 <= u <= 0x66 then Some(u - 0x57)
    else if 0x41 <= u <= 0x46 then Some(u - 0x37)
    else None
  }

  function Cons(b: Byte, rest: Option<seq<Byte>>): Option<seq<Byte>> {
    if rest.Some? then Some([b] + rest.value) else None
  }

  /** The inside of `$'...'`: a `\x` takes one or two hexadecimal digits. */
  function ReadAnsiC(t: Text): Option<seq<Byte>> {
    if t == [] then None
    else if t[0] == QUOTE then (if |t| == 1 then Some([]) else None)
    else if t[0] >= 0x80 then None
    else if t[0] != BACKSLASH then Cons(t[0], ReadAnsiC(t[1..]))
    else if |t| < 3 || t[1] != LOWER_X || HexValue(t[2]).None? then None
    else if |t| > 3 && HexValue(t[3]).Some? then
      Cons(HexValue(t[2]).value * 16 + HexValue(t[3]).value, ReadAnsiC(t[4..]))
    else Cons(HexValue(t[2]).value, ReadAnsiC(t[3..]))
  }

  /** The inside of `'...'`: every character stands for itself. */
  function ReadPlain(t: Text): Option<seq<Byte>> {
    if t == [] then None
    else if t[0] == QUOTE then (if |t| == 1 then Some([]) else None)
    else if t[0] >= 0x80 then None
    else Cons(t[0], ReadPlain(t[1..]))
  }

  /** The bytes one shell word stands for. */
  function ReadWord(t: Text): Option<seq<Byte>> {
    if |t| >= 2 && t[0] == DOLLAR && t[1] == QUOTE then ReadAnsiC(t[2..])
    else if |t| >= 1 && t[0] == QUOTE then ReadPlain(t[1..])
    else None
  }

  /** What a process receives as an argument: the bytes before the first NUL. */
  function CString(bytes: seq<Byte>): seq<Byte> {
    if bytes == [] || bytes[0] == 0 then [] else [bytes[0]] + CString(bytes[1..])
  }

  /** The path a command gets back from the rendered token. */
  function Recover(t: Text): Option<Text> {
    var word := ReadWord(t);
    if word.None? then None else DecodeUtf8(CString(word.value))
  }

  // ----- the round trip -----

  lemma HexRoundTrip(b: Byte, rest: Text)
    ensures ReadAnsiC(HexEscape(b) + rest) == Cons(b, ReadAnsiC(rest))
  {
    var t := HexEscape(b) + rest;
    assert HexValue(t[2]) == Some(b / 16) && HexValue(t[3]) == Some(b % 16);
    assert t[4..] == rest;
  }

  function Prepend(bytes: seq<Byte>, rest: Option<seq<Byte>>): Option<seq<Byte>> {
    if rest.Some? then Some(bytes + rest.value) else None
  }

  lemma {:induction false} HexEscapesRoundTrip(bytes: seq<Byte>, rest: Text)
    ensures ReadAnsiC(HexEscapes(bytes) + rest) == Prepend(bytes, ReadAnsiC(rest))
  {
    if bytes == [] {
      assert HexEscapes(bytes) + rest == rest;
      assert ReadAnsiC(rest).Some? ==> [] + ReadAnsiC(rest).value == ReadAnsiC(rest).value;
    } else {
      assert HexEscapes(bytes) + rest == HexEscape(bytes[0]) + (HexEscapes(bytes[1..]) + rest);
      HexRoundTrip(bytes[0], HexEscapes(bytes[1..]) + rest);
      HexEscapesRoundTrip(bytes[1..], rest);
      assert bytes == [bytes[0]] + bytes[1..];
      assert ReadAnsiC(rest).Some? ==>
          [bytes[0]] + (bytes[1..] + ReadAnsiC(rest).value) == bytes + ReadAnsiC(rest).value;
    }
  }

  lemma SafeHead(s: Text)
    requires s != [] && SafeChar(s[0])
    ensures EncodeCodePoint(HeadCodePoint(s)) == [s[0]] && Width(s, 0) == 1
    ensures s[0] < 0x80 && s[0] != QUOTE && s[0] != BACKSLASH && s[0] != DOLLAR
  {
  }

  lemma {:induction false} BodyRoundTrip(s: Text)
    ensures ReadAnsiC(EscapeBody(s) + [QUOTE]) == Some(EncodeUtf8(s))
  {
    hide EncodeCodePoint, HeadCodePoint, HexEscapes, Width, SafeChar;
    if s == [] {
      assert EscapeBody(s) + [QUOTE] == [QUOTE];
    } else {
      var tail := s[Width(s, 0)..];
      BodyRoundTrip(tail);
      var bytes := EncodeCodePoint(HeadCodePoint(s));
      if SafeChar(s[0]) {
        SafeHead(s);
        assert EscapeBody(s) + [QUOTE] == [s[0]] + (EscapeBody(tail) + [QUOTE]);
      } else {
        assert EscapeBody(s) + [QUOTE] == HexEscapes(bytes) + (EscapeBody(tail) + [QUOTE]);
        HexEscapesRoundTrip(bytes, EscapeBody(tail) + [QUOTE]);
      }
    }
  }

  lemma {:induction false} PlainRoundTrip(s: Text)
    requires AllSafe(s)
    ensures ReadPlain(s + [QUOTE]) == Some(EncodeUtf8(s))
  {
    if s != [] {
      assert SafeChar(s[0]);
      assert (s + [QUOTE])[1..] == s[1..] + [QUOTE];
      PlainRoundTrip(s[1..]);
    }
  }

  /** The shell reads the rendered token back to the path's UTF-8 bytes, for
      every path, well formed or not. */
  lemma EscapeRoundTrip(s: Text)
    ensures ReadWord(Escape(s)) == Some(EncodeUtf8(s))
  {
    var t := Escape(s);
    if AllSafe(s) {
      assert t[1..] == s + [QUOTE];
      PlainRoundTrip(s);
    } else {
      assert t[2..] == EscapeBody(s) + [QUOTE];
      BodyRoundTrip(s);
    }
  }

  predicate TagSafe(u: CodeUnit) { SafeChar(u) || u == DOLLAR || u == QUOTE || u == BACKSLASH }

  lemma {:induction false} HexEscapesTagSafe(bytes: seq<Byte>)
    ensures forall u :: u in HexEscapes(bytes) ==> TagSafe(u)
  {
    if bytes != [] {
      HexEscapesTagSafe(bytes[1..]);
    }
  }

  lemma {:induction false} BodyTagSafe(s: Text)
    ensures forall u :: u in EscapeBody(s) ==> TagSafe(u)
  {
    if s != [] {
      BodyTagSafe(s[Width(s, 0)..]);
      HexEscapesTagSafe(EncodeCodePoint(HeadCodePoint(s)));
    }
  }

  /** Letters, digits, slash, dot, underscore and hyphen. */
  predicate Conservative(u: CodeUnit) {
    0x30 <= u <= 0x39 || 0x41 <= u <= 0x5a || 0x61 <= u <= 0x7a || u == 0x2f || u == 0x2e || u == 0x5f || u == 0x2d
  }

  /** Nothing can appear but letters, digits, `/._-`, dollar, quote and backslash: no tag
      delimiter, bracket, control character or backtick. */
  lemma EscapeIsTagSafe(s: Text)
    ensures forall u :: u in Escape(s) ==> Conservative(u) || u == 0x24 || u == 0x27 || u == 0x5c
  {
    BodyTagSafe(s);
  }

  /** A path of conservative characters only stands as it is between single quotes; any
      other is written in the dollar form, where such characters still stand as they are
      and every other code point is hexadecimal escapes. */
  lemma EscapeShows(s: Text)
    ensures (forall u :: u in s ==> Conservative(u)) ==> Escape(s) == [0x27] + s + [0x27]
    ensures (exists u :: u in s && !Conservative(u)) ==> Escape(s) == [0x24, 0x27] + EscapeBody(s) + [0x27]
    ensures s != [] && Conservative(s[0]) ==> EscapeBody(s) == [s[0]] + EscapeBody(s[1..])
    ensures s != [] && !Conservative(s[0]) ==>
              EscapeBody(s) == HexEscapes(EncodeCodePoint(HeadCodePoint(s))) + EscapeBody(s[Width(s, 0)..])
  {
    hide HexEscapes, EncodeCodePoint, HeadCodePoint;
  }

  function BeforeNul(s: Text): Text {
    if s == [] || s[0] == 0 then [] else [s[0]] + BeforeNul(s[1..])
  }

  lemma {:induction false} BeforeNulLength(s: Text)
    ensures BeforeNul(s) <= s
    ensures BeforeNul(s) == s <==> 0 !in s
  {
    if s != [] && s[0] != 0 {
      BeforeNulLength(s[1..]);
      assert s == [s[0]] + s[1..];
    }
  }

  lemma {:induction false} CStringPrefix(bytes: seq<Byte>, rest: seq<Byte>)
    requires 0 !in bytes
    ensures CString(bytes + rest) == bytes + CString(rest)
  {
    if bytes == [] {
      assert bytes + rest == rest;
    } else {
      assert (bytes + rest)[1..] == bytes[1..] + rest;
      CStringPrefix(bytes[1..], rest);
    }
  }

  lemma EncodeNul(c: int)
    requires 0 <= c < 0x11_0000
    ensures if c == 0 then EncodeCodePoint(c) == [0] else 0 !in EncodeCodePoint(c)
  {
  }

  lemma BeforeNulHead(s: Text)
    requires s != [] && s[0] != 0
    ensures BeforeNul(s) == s[..Width(s, 0)] + BeforeNul(s[Width(s, 0)..])
  {
    if Width(s, 0) == 2 {
      assert s[1..][1..] == s[2..];
      assert BeforeNul(s[1..]) == [s[1]] + BeforeNul(s[2..]);
    }
  }

  lemma {:induction false} CStringOfUtf8(s: Text)
    ensures CString(EncodeUtf8(s)) == EncodeUtf8(BeforeNul(s))
  {
    hide EncodeCodePoint;
    if s != [] { EncodeNul(HeadCodePoint(s)); }
    if s != [] && s[0] != 0 {
      var w := Width(s, 0);
      var tail := s[w..];
      CStringOfUtf8(tail);
      CStringPrefix(EncodeCodePoint(HeadCodePoint(s)), EncodeUtf8(tail));
      var kept := BeforeNul(s);
      BeforeNulHead(s);
      assert BeforeNul(tail) != [] ==> BeforeNul(tail)[0] == tail[0];
      assert Width(kept, 0) == w && HeadCodePoint(kept) == HeadCodePoint(s);
      assert kept[w..] == BeforeNul(tail);
    }
  }

  lemma RecoverGives(s: Text)
    ensures Recover(Escape(s)) == Some(Repair(BeforeNul(s)))
  {
    EscapeRoundTrip(s);
    CStringOfUtf8(s);
    DecodeRoundTrip(BeforeNul(s));
  }

  /** The advertised command gets the exact path back for a well-formed,
      NUL-free path, and for no other. */
  lemma RecoverIffPlainPath(s: Text)
    ensures Recover(Escape(s)) == Some(s) <==> WellFormed(s) && 0 !in s
  {
    RecoverGives(s);
    BeforeNulLength(s);
    RepairLength(BeforeNul(s));
    if WellFormed(s) { RepairKeepsWellFormed(s); }
    if Repair(s) == s { RepairChangesIllFormed(s); }
    assert BeforeNul(s) != s ==> |BeforeNul(s)| < |s|;
  }
}
