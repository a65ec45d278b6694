/** `Array.prototype.join`, `String.prototype.split`, and hexadecimal digits. */
module Strings {
  import opened Utf16

  /** A lower-case hexadecimal digit. */
  function HexDigit(d: int): CodeUnit
    requires 0 <= d < 16
  {
    if d < 10 then 0x30 + d else 0x57 + d
  }

  function Join(joiner: Text, xs: seq<Text>): Text {
    if xs == [] then []
    else if |xs| == 1 then xs[0]
    else Join(joiner, xs[..|xs| - 1]) + joiner + xs[|xs| - 1]
  }

  lemma JoinNone(joiner: Text, xs: seq<Text>)
    requires xs == []
    ensures Join(joiner, xs) == []
  {
  }

  lemma JoinSnoc(joiner: Text, xs: seq<Text>, k: nat)
    requires k < |xs|
    ensures Join(joiner, xs[..k + 1]) == if k == 0 then xs[0] else Join(joiner, xs[..k]) + joiner + xs[k]
  {
    assert xs[..k + 1][..k] == xs[..k];
  }

  lemma {:induction false} JoinGrows(joiner: Text, xs: seq<Text>, k: nat)
    requires k <= |xs|
    ensures forall j :: k <= j <= |xs| ==> |Join(joiner, xs[..k])| <= |Join(joiner, xs[..j])|
    decreases |xs| - k
  {
    hide Join;
    if k < |xs| {
      JoinSnoc(joiner, xs, k);
      JoinNone(joiner, xs[..0]);
      JoinGrows(joiner, xs, k + 1);
    }
  }

  function Split(text: Text, separator: CodeUnit): (pieces: seq<Text>)
    ensures pieces != []
  {
    if text == [] then [[]]
    else
      var rest := Split(text[1..], separator);
      if text[0] == separator then [[]] + rest else [[text[0]] + rest[0]] + rest[1..]
  }

  lemma {:induction false} SplitWhole(text: Text, separator: CodeUnit)
    requires separator !in text
    ensures Split(text, separator) == [text]
  {
    if text != [] {
      assert text == [text[0]] + text[1..];
      SplitWhole(text[1..], separator);
    }
  }

  lemma {:induction false} SplitAppend(a: Text, separator: CodeUnit, b: Text)
    ensures Split(a + ([separator] + b), separator) == Split(a, separator) + Split(b, separator)
  {
    var text := a + ([separator] + b);
    if a == [] {
      assert text == [separator] + b && text[1..] == b;
    } else {
      assert text[0] == a[0] && text[1..] == a[1..] + ([separator] + b);
      SplitAppend(a[1..], separator, b);
    }
  }

  /** Splitting undoes joining when no piece holds the separator. */
  lemma {:induction false} SplitJoin(xs: seq<Text>, separator: CodeUnit)
    requires xs != [] && forall i :: 0 <= i < |xs| ==> separator !in xs[i]
    ensures Split(Join([separator], xs), separator) == xs
  {
    hide Split, Join;
    var n := |xs| - 1;
    JoinSnoc([separator], xs, n);
    assert xs[..n + 1] == xs;
    SplitWhole(xs[n], separator);
    if n > 0 {
      var front := Join([separator], xs[..n]);
      SplitJoin(xs[..n], separator);
      assert front + [separator] + xs[n] == front + ([separator] + xs[n]);
      SplitAppend(front, separator, xs[n]);
    }
  }
}
