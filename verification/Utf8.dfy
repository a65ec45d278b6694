/** UTF-8 (section 3 of RFC 3629) of JavaScript strings, both ways. */
module Utf8 {
  import opened Utf16
  import opened Options

  type Byte = b: int | 0 <= b < 256

  /** The code point the string iterator yields at the head of `s`; a lone
      surrogate is encoded as U+FFFD by `Buffer.from`. */
  function HeadCodePoint(s: Text): (c: int)
    requires s != []
    ensures 0 <= c < 0x11_0000 && !(0xD800 <= c < 0xE000)
  {
    if Splits(s, 1) then 0x1_0000 + (s[0] as int - 0xD800) * 0x400 + (s[1] as int - 0xDC00)
    else if IsHigh(s[0]) || IsLow(s[0]) then 0xFFFD
    else s[0]
  }

  function EncodeCodePoint(c: int): (bytes: seq<Byte>)
    requires 0 <= c < 0x11_0000
    ensures |bytes| == if c < 0x80 then 1 else if c < 0x800 then 2 else if c < 0x1_0000 then 3 else 4
  {
    if c < 0x80 then [c]
    else if c < 0x800 then [0xC0 + c / 0x40, 0x80 + c % 0x40]
    else if c < 0x1_0000 then [0xE0 + c / 0x1000, 0x80 + c / 0x40 % 0x40, 0x80 + c % 0x40]
    else [0xF0 + c / 0x4_0000, 0x80 + c / 0x1000 % 0x40, 0x80 + c / 0x40 % 0x40, 0x80 + c % 0x40]
  }

  /** `Buffer.from(s, 'utf8')`. */
  function EncodeUtf8(s: Text): seq<Byte> {
    if s == [] then [] else EncodeCodePoint(HeadCodePoint(s)) + EncodeUtf8(s[Width(s, 0)..])
  }

  function UnitsOf(c: int): Text
    requires 0 <= c < 0x11_0000
  {
    if c < 0x1_0000 then [c]
    else [0xD800 + (c - 0x1_0000) / 0x400, 0xDC00 + (c - 0x1_0000) % 0x400]
  }

  /** How many bytes the code point at the head of `b` takes, by its lead byte. */
  function HeadLength(b: seq<int>): nat
    requires b != []
  {
    if b[0] < 0x80 then 1 else if b[0] < 0xE0 then 2 else if b[0] < 0xF0 then 3 else 4
  }

  function HeadValue(b: seq<int>): int
    requires b != [] && HeadLength(b) <= |b|
  {
    match HeadLength(b)
    case 1 => b[0]
    case 2 => (b[0] - 0xC0) * 0x40 + (b[1] - 0x80)
    case 3 => (b[0] - 0xE0) * 0x1000 + (b[1] - 0x80) * 0x40 + (b[2] - 0x80)
    case _ => (b[0] - 0xF0) * 0x4_0000 + (b[1] - 0x80) * 0x1000 + (b[2] - 0x80) * 0x40 + (b[3] - 0x80)
  }

  function DecodeUtf8(b: seq<Byte>): Option<Text> {
    if b == [] then Some([])
    else if |b| < HeadLength(b) || !(0 <= HeadValue(b) < 0x11_0000) then None
    else
      var rest := DecodeUtf8(b[HeadLength(b)..]);
      if rest.None? then None else Some(UnitsOf(HeadValue(b)) + rest.value)
  }

  /** Lone surrogates become U+FFFD on the way through UTF-8. */
  function Repair(s: Text): Text {
    if s == [] then []
    else (if Splits(s, 1) then s[..2] else [HeadCodePoint(s)]) + Repair(s[Width(s, 0)..])
  }

  lemma {:induction false} DecodeOne(c: int, rest: seq<Byte>)
    requires 0 <= c < 0x11_0000 && DecodeUtf8(rest).Some?
    ensures DecodeUtf8(EncodeCodePoint(c) + rest) == Some(UnitsOf(c) + DecodeUtf8(rest).value)
  {
    var e := EncodeCodePoint(c);
    var b := e + rest;
    HeadRoundTrip(c, rest);
    assert b[|e|..] == rest;
  }

  lemma HeadRoundTrip(c: int, rest: seq<Byte>)
    requires 0 <= c < 0x11_0000
    ensures var e := EncodeCodePoint(c); HeadLength(e + rest) == |e| && HeadValue(e + rest) == c
  {
    var hi, mid := c / 0x1000, c / 0x40;
    assert mid == hi * 0x40 + mid % 0x40;
    assert hi == c / 0x4_0000 * 0x40 + hi % 0x40;
  }

  lemma {:induction false} DecodeRoundTrip(s: Text)
    ensures DecodeUtf8(EncodeUtf8(s)) == Some(Repair(s))
  {
    if s != [] {
      var tail := s[Width(s, 0)..];
      DecodeRoundTrip(tail);
      DecodeOne(HeadCodePoint(s), EncodeUtf8(tail));
      HeadUnits(s);
    }
  }

  lemma HeadUnits(s: Text)
    requires s != []
    ensures UnitsOf(HeadCodePoint(s)) == if Splits(s, 1) then s[..2] else [HeadCodePoint(s)]
  {
    if Splits(s, 1) {
      var hi, lo := s[0] as int - 0xD800, s[1] as int - 0xDC00;
      assert (hi * 0x400 + lo) / 0x400 == hi && (hi * 0x400 + lo) % 0x400 == lo;
      assert s[..2] == [s[0], s[1]];
    }
  }

  /** A surrogate without its partner. */
  predicate Lone(s: Text, i: nat)
    requires i < |s|
  {
    || (0xd800 <= s[i] <= 0xdbff && !(i + 1 < |s| && 0xdc00 <= s[i + 1] <= 0xdfff))
    || (0xdc00 <= s[i] <= 0xdfff && !(0 < i && 0xd800 <= s[i - 1] <= 0xdbff))
  }

  /** Unit by unit: a lone surrogate becomes U+FFFD and everything else stays. */
  lemma {:induction false} RepairMeans(s: Text, i: nat)
    requires i < |s|
    ensures |Repair(s)| == |s| && Repair(s)[i] == if Lone(s, i) then 0xfffd else s[i]
  {
    RepairLength(s);
    var w := Width(s, 0);
    if i >= w {
      RepairLength(s[w..]);
      RepairMeans(s[w..], i - w);
      assert Lone(s[w..], i - w) == Lone(s, i);
    }
  }

  lemma {:induction false} RepairLength(s: Text)
    ensures |Repair(s)| == |s|
  {
    if s != [] { RepairLength(s[Width(s, 0)..]); }
  }

  lemma {:induction false} RepairKeepsWellFormed(s: Text)
    requires WellFormed(s)
    ensures Repair(s) == s
  {
    if s != [] {
      var w := Width(s, 0);
      var tail := s[w..];
      assert Paired(s, 0);
      forall i | 0 <= i < |tail| ensures Paired(tail, i) {
        assert Paired(s, i + w);
      }
      RepairKeepsWellFormed(tail);
      assert s == s[..w] + tail;
    }
  }

  lemma {:induction false} RepairChangesIllFormed(s: Text)
    requires Repair(s) == s
    ensures WellFormed(s)
  {
    if s != [] {
      var w := Width(s, 0);
      RepairLength(s[w..]);
      assert Repair(s)[w..] == Repair(s[w..]);
      assert Repair(s)[0] == s[0];
      RepairChangesIllFormed(s[w..]);
      WellFormedFromTail(s);
    }
  }

  lemma WellFormedFromTail(s: Text)
    requires s != [] && WellFormed(s[Width(s, 0)..]) && (Width(s, 0) == 1 ==> HeadCodePoint(s) == s[0] as int)
    ensures WellFormed(s)
  {
    var w := Width(s, 0);
    forall i | 0 <= i < |s| ensures Paired(s, i) {
      if i >= w { assert Paired(s[w..], i - w); }
    }
  }

  /** `Buffer.byteLength(s, 'utf8')`. */
  function ByteLength(s: Text): nat { |EncodeUtf8(s)| }

  /** Bytes add up over a concatenation that joins no surrogate pair. */
  lemma {:induction false} ByteLengthAppend(a: Text, b: Text)
    requires !Splits(a + b, |a|)
    ensures ByteLength(a + b) == ByteLength(a) + ByteLength(b)
  {
    hide EncodeCodePoint;
    if a == [] {
      assert a + b == b;
    } else {
      var ab := a + b;
      var w := Width(a, 0);
      assert Width(ab, 0) == w && HeadCodePoint(ab) == HeadCodePoint(a) by {
        assert |a| == 1 ==> !Splits(ab, 1);
        assert |a| > 1 ==> ab[1] == a[1];
      }
      assert ab[w..] == a[w..] + b;
      assert Splits(a[w..] + b, |a| - w) ==> Splits(ab, |a|);
      ByteLengthAppend(a[w..], b);
    }
  }
}
