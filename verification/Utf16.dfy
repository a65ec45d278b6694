/** JavaScript strings as sequences of UTF-16 code units, and the prefix
    truncation every bounded text surface of the CLI shares. */
module Utf16 {

  type CodeUnit = u: int | 0 <= u < 0x1_0000
  type Text = seq<CodeUnit>

  predicate IsHigh(u: CodeUnit) { 0xD800 <= u < 0xDC00 }

  predicate IsLow(u: CodeUnit) { 0xDC00 <= u < 0xE000 }

  /** A cut at `k` separates a high surrogate from the low surrogate after it. */
  predicate Splits(s: Text, k: int) {
    0 < k < |s| && IsHigh(s[k - 1]) && IsLow(s[k])
  }

  /** How many code units the string iterator yields at position `i`. */
  function Width(s: Text, i: nat): (w: nat)
    requires i < |s|
    ensures 1 <= w <= 2 && i + w <= |s|
  {
    if Splits(s, i + 1) then 2 else 1
  }

  /** The unit at `i`, if a surrogate, is half of a pair. */
  predicate Paired(s: Text, i: nat)
    requires i < |s|
  {
    && (IsHigh(s[i]) ==> i + 1 < |s| && IsLow(s[i + 1]))
    && (IsLow(s[i]) ==> 0 < i && IsHigh(s[i - 1]))
  }

  predicate WellFormed(s: Text) {
    forall i :: 0 <= i < |s| ==> Paired(s, i)
  }

  function Max(a: int, b: int): int { if a < b then b else a }

  function Min(a: int, b: int): int { if a < b then a else b }

  /** Where a truncation to `budget` units cuts, in closed form. */
  function CutPoint(s: Text, budget: int): (k: nat)
    ensures k <= |s| && k <= Max(0, budget) && !Splits(s, k)
    ensures forall j :: k < j <= |s| && j <= budget ==> Splits(s, j)
    ensures budget >= |s| ==> k == |s|
  {
    if budget <= 0 then 0
    else if budget >= |s| then |s|
    else if Splits(s, budget) then budget - 1
    else budget
  }

  /** The shared truncation loop: it keeps the longest prefix within `budget`
      code units that does not split a surrogate pair. */
  method TruncateAtCodePointBoundary(value: Text, budget: int) returns (out: Text)
    ensures out <= value && |out| <= Max(0, budget) && !Splits(value, |out|)
    ensures forall k :: |out| < k <= |value| && k <= budget ==> Splits(value, k)
    ensures out == value[..CutPoint(value, budget)]
    ensures 0 < |out| < |value| ==> !(0xd800 <= value[|out| - 1] <= 0xdbff && 0xdc00 <= value[|out|] <= 0xdfff)
    ensures |out| < |value| && |out| < budget ==>
              var k := |out|; k + 1 < |value| && 0xd800 <= value[k] <= 0xdbff && 0xdc00 <= value[k + 1] <= 0xdfff
  {
    out := [];
    var i := 0;
    while i < |value|
      invariant 0 <= i <= |value| && out == value[..i] && !Splits(value, i)
      invariant i <= Max(0, budget)
    {
      var ch := value[i..i + Width(value, i)];
      if |out| + |ch| > budget {
        break;
      }
      out := out + ch;
      i := i + |ch|;
    }
  }

  /** A truncated well-formed text is well formed. */
  lemma TruncationKeepsWellFormed(s: Text, budget: int)
    requires WellFormed(s)
    ensures WellFormed(s[..CutPoint(s, budget)])
  {
    var k := CutPoint(s, budget);
    forall i | 0 <= i < k
      ensures Paired(s[..k], i)
    {
      assert Paired(s, i) && !Splits(s, k);
    }
  }

  /** `r` is the longest prefix of `value` that leaves room for `marker` and splits
      no surrogate pair, and then the marker. */
  predicate CutBefore(value: Text, r: Text, cap: int, marker: Text) {
    |r| >= |marker| && r[|r| - |marker|..] == marker
    && var k := |r| - |marker|;
       && k <= |value| && r[..k] == value[..k] && !Splits(value, k)
       && forall j :: k < j <= |value| && j + |marker| <= cap ==> Splits(value, j)
  }

  /** Cut only when over `cap`, and then end with `marker`. */
  function TruncateWithMarker(value: Text, cap: int, marker: Text): (r: Text)
    ensures |r| <= cap <==> |value| <= cap || |marker| <= cap
    ensures |value| <= cap ==> r == value
    ensures |value| > cap ==> CutBefore(value, r, cap, marker)
  {
    if |value| <= cap then value
    else
      var budget := Max(0, cap - |marker|);
      value[..CutPoint(value, budget)] + marker
  }

  /** Always end with `marker`, cutting `body` only when the two do not fit. */
  function AppendMarkerWithinCap(body: Text, cap: int, marker: Text): (r: Text)
    ensures |r| <= cap <==> |marker| <= cap
    ensures |body| + |marker| <= cap ==> r == body + marker
    ensures |r| >= |marker| && r[|r| - |marker|..] == marker
    ensures CutBefore(body, r, cap, marker)
  {
    var budget := Max(0, cap - |marker|);
    if |body| <= budget then body + marker
    else body[..CutPoint(body, budget)] + marker
  }
}
