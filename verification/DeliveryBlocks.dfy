/** One event as the block of text both injecting transports deliver, with the
    content rules of each. */
module DeliveryBlocks {
  import opened Utf16
  import opened Options
  import opened Strings

  datatype Event = Event(id: Text, monitorId: Text, urgency: Text, title: Text, body: Text,
                         summary: Text, objectDetail: Option<Text>, diffText: Option<Text>)

  datatype Transport = Hook | Channel

  const MAX_EVENT_DIFF := 800

  const NL: CodeUnit := 0x0a
  const TAB: CodeUnit := 0x09
  const CR: CodeUnit := 0x0d
  const SPACE: CodeUnit := 0x20

  // ----- sanitizing -----

  /** Raw C0/C1 controls other than tab and newline. */
  predicate IsControl(u: int) { (u < 0x20 && u != NL && u != TAB) || 0x7f <= u <= 0x9f }

  /** `<`, `>`, `[`, `]` and carriage return could break out of the channel tag. */
  predicate BreaksTag(u: CodeUnit) { u == 0x3c || u == 0x3e || u == 0x5b || u == 0x5d || u == CR }

  predicate Allowed(t: Transport, u: CodeUnit) {
    if t.Hook? then !IsControl(u) else !BreaksTag(u)
  }

  predicate Clean(t: Transport, s: Text) {
    forall i :: 0 <= i < |s| ==> Allowed(t, s[i])
  }

  /** The hook drops what it disallows, the channel writes a space instead. */
  function SanitizeUnit(t: Transport, u: CodeUnit): Text {
    if Allowed(t, u) then [u] else if t.Hook? then [] else [SPACE]
  }

  function Sanitize(t: Transport, value: Text): (r: Text)
    ensures Clean(t, r) && |r| <= |value|
    ensures Clean(t, value) ==> r == value
    ensures t.Channel? ==> |r| == |value|
  {
    if value == [] then [] else SanitizeUnit(t, value[0]) + Sanitize(t, value[1..])
  }

  lemma Associate(a: Text, b: Text, c: Text)
    ensures (a + b) + c == a + (b + c)
  {
  }

  lemma {:induction false} SanitizeAppend(t: Transport, a: Text, b: Text)
    ensures Sanitize(t, a + b) == Sanitize(t, a) + Sanitize(t, b)
  {
    hide Allowed, SanitizeUnit, Clean;
    if a == [] {
      assert a + b == b && Sanitize(t, a) == [];
    } else {
      assert (a + b)[0] == a[0] && (a + b)[1..] == a[1..] + b;
      SanitizeAppend(t, a[1..], b);
      Associate(SanitizeUnit(t, a[0]), Sanitize(t, a[1..]), Sanitize(t, b));
    }
  }

  function CodePointAt(s: Text, i: nat): int
    requires i < |s|
  {
    if Width(s, i) == 2 then (s[i] as int - 0xD800) * 0x400 + (s[i + 1] as int - 0xDC00) + 0x1_0000 else s[i]
  }

  /** The hook's loop over code points. */
  method SanitizeHook(value: Text) returns (out: Text)
    ensures out == Sanitize(Hook, value)
  {
    hide Sanitize, IsControl, Clean;
    out := [];
    var i := 0;
    assert Sanitize(Hook, value[..0]) == [];
    while i < |value|
      invariant 0 <= i <= |value| && out == Sanitize(Hook, value[..i])
    {
      var w := Width(value, i);
      var ch := value[i..i + w];
      KeepOrDrop(value, i);
      if !IsControl(CodePointAt(value, i)) {
        out := out + ch;
      }
      i := i + w;
    }
    assert value[..i] == value;
  }

  lemma KeepOrDrop(value: Text, i: nat)
    requires i < |value|
    ensures var w := Width(value, i);
            Sanitize(Hook, value[..i + w]) ==
            Sanitize(Hook, value[..i]) + if IsControl(CodePointAt(value, i)) then [] else value[i..i + w]
  {
    hide Sanitize, IsControl, Clean;
    var ch := value[i..i + Width(value, i)];
    OneCodePoint(value, i);
    assert value[..i] + ch == value[..i + |ch|];
    SanitizeAppend(Hook, value[..i], ch);
  }

  lemma OneCodePoint(value: Text, i: nat)
    requires i < |value|
    ensures var ch := value[i..i + Width(value, i)];
            Sanitize(Hook, ch) == if IsControl(CodePointAt(value, i)) then [] else ch
  {
    var ch := value[i..i + Width(value, i)];
    if |ch| == 1 {
      assert ch == [value[i]] && ch[1..] == [];
    } else {
      assert ch == [value[i], value[i + 1]];
      assert Clean(Hook, ch);
    }
  }

  // ----- blocks -----

  /** White space and line terminators, as `String.prototype.trim` removes. */
  predicate IsSpace(u: CodeUnit) {
    0x09 <= u <= 0x0d || u in [0x20, 0xa0, 0x1680, 0x2028, 0x2029, 0x202f, 0x205f, 0x3000, 0xfeff] || 0x2000 <= u <= 0x200a
  }

  predicate Blank(s: Text) { forall i :: 0 <= i < |s| ==> IsSpace(s[i]) }

  function Ascii(s: string): (r: Text)
    requires forall i :: 0 <= i < |s| ==> s[i] < 128 as char
    ensures |r| == |s| && forall i :: 0 <= i < |s| ==> r[i] == s[i] as int
  {
    seq(|s|, i requires 0 <= i < |s| => s[i] as int)
  }

  /** `\n… (change summary truncated)` */
  const DIFF_ELISION_MARKER: Text := [NL, 0x2026] + Ascii(" (change summary truncated)")

  function ChangeSummary(t: Transport, diff: Text): (r: Text)
    ensures |r| <= MAX_EVENT_DIFF && Clean(t, r)
  {
    assert |DIFF_ELISION_MARKER| <= MAX_EVENT_DIFF;
    Sanitize(t, TruncateWithMarker(diff, MAX_EVENT_DIFF, DIFF_ELISION_MARKER))
  }

  function DetailLines(t: Transport, e: Event): (lines: seq<Text>)
    ensures forall l :: l in lines ==> Clean(t, l)
  {
    var title, body := Sanitize(t, e.title), Sanitize(t, e.body);
    var detail := Sanitize(t, if e.objectDetail.Some? then e.objectDetail.value else e.summary);
    var digest := Sanitize(t, e.summary);
    (if detail != [] && detail != title && detail != body then [detail] else []) +
    (if digest != [] && digest != title && digest != body && digest != detail then [digest] else [])
  }

  lemma {:induction false} JoinClean(t: Transport, joiner: Text, xs: seq<Text>)
    requires Clean(t, joiner) && forall x :: x in xs ==> Clean(t, x)
    ensures Clean(t, Join(joiner, xs))
  {
    if |xs| > 1 {
      var n := |xs| - 1;
      JoinClean(t, joiner, xs[..n]);
      CleanAppend(t, Join(joiner, xs[..n]), joiner);
      CleanAppend(t, Join(joiner, xs[..n]) + joiner, xs[n]);
    }
  }

  lemma CleanAppend(t: Transport, a: Text, b: Text)
    ensures Clean(t, a + b) <==> Clean(t, a) && Clean(t, b)
  {
    if Clean(t, a + b) {
      assert forall i :: 0 <= i < |a| ==> a[i] == (a + b)[i];
      assert forall i :: 0 <= i < |b| ==> b[i] == (a + b)[|a| + i];
    }
  }

  /** `### <monitor> (<urgency>)`, the title, and the detail lines. */
  function Heading(t: Transport, e: Event): (h: Text)
    ensures h != []
  {
    var lines := DetailLines(t, e);
    Ascii("### ") + Sanitize(t, e.monitorId) + Ascii(" (") + Sanitize(t, e.urgency) + Ascii(")\n") + Sanitize(t, e.title)
    + (if lines == [] then [] else [NL] + Join([NL], lines))
  }

  function Changes(t: Transport, e: Event): Text {
    if e.diffText.Some? && !Blank(e.diffText.value)
    then Ascii("\n\nChanges:\n") + ChangeSummary(t, e.diffText.value)
    else []
  }

  function EventBlock(t: Transport, e: Event): (block: Text)
    ensures block != []
  {
    Heading(t, e) + [NL, NL] + Sanitize(t, e.body) + Changes(t, e)
  }

  lemma HeadingClean(t: Transport, e: Event)
    ensures Clean(t, Heading(t, e))
  {
    hide Sanitize, DetailLines, Blank, Clean, Join;
    var lines := DetailLines(t, e);
    AsciiClean(t);
    JoinClean(t, [NL], lines);
    var m, u, i := Sanitize(t, e.monitorId), Sanitize(t, e.urgency), Sanitize(t, e.title);
    CleanAppend(t, Ascii("### "), m);
    CleanAppend(t, Ascii("### ") + m, Ascii(" ("));
    CleanAppend(t, Ascii("### ") + m + Ascii(" ("), u);
    CleanAppend(t, Ascii("### ") + m + Ascii(" (") + u, Ascii(")\n"));
    CleanAppend(t, Ascii("### ") + m + Ascii(" (") + u + Ascii(")\n"), i);
    var d := if lines == [] then [] else [NL] + Join([NL], lines);
    if lines != [] { CleanAppend(t, [NL], Join([NL], lines)); }
    CleanAppend(t, Ascii("### ") + m + Ascii(" (") + u + Ascii(")\n") + i, d);
  }

  lemma AsciiClean(t: Transport)
    ensures Clean(t, Ascii("### ")) && Clean(t, Ascii(" (")) && Clean(t, Ascii(")\n")) && Clean(t, Ascii("\n\nChanges:\n"))
    ensures Clean(t, []) && Clean(t, [NL]) && Clean(t, [NL, NL])
  {
  }

  /** No event field can smuggle a disallowed character into its block. */
  lemma BlockClean(t: Transport, e: Event)
    ensures Clean(t, EventBlock(t, e))
  {
    hide Sanitize, ChangeSummary, Heading, Blank, Clean;
    HeadingClean(t, e);
    AsciiClean(t);
    var h, b := Heading(t, e), Sanitize(t, e.body);
    if e.diffText.Some? { CleanAppend(t, Ascii("\n\nChanges:\n"), ChangeSummary(t, e.diffText.value)); }
    CleanAppend(t, h, [NL, NL]);
    CleanAppend(t, h + [NL, NL], b);
    CleanAppend(t, h + [NL, NL] + b, Changes(t, e));
  }

  /** The detail lines add what title and body do not already say, once each, and
      leave out nothing that is not said elsewhere. */
  lemma DetailSaysTheRest(t: Transport, e: Event)
    ensures var lines := DetailLines(t, e);
            var title, body := Sanitize(t, e.title), Sanitize(t, e.body);
            var detail := Sanitize(t, if e.objectDetail.Some? then e.objectDetail.value else e.summary);
            && (forall l :: l in lines ==> l != [] && l != title && l != body)
            && (|lines| == 2 ==> lines[0] != lines[1]) && |lines| <= 2
            && (forall said :: said in {detail, Sanitize(t, e.summary)} ==> said == [] || said in lines + [title, body])
  {
    hide Sanitize;
  }

  ghost predicate CleanEvent(t: Transport, e: Event) {
    && Clean(t, e.monitorId) && Clean(t, e.urgency) && Clean(t, e.title) && Clean(t, e.body) && Clean(t, e.summary)
    && (e.objectDetail.Some? ==> Clean(t, e.objectDetail.value)) && (e.diffText.Some? ==> Clean(t, e.diffText.value))
  }

  lemma {:induction false} CutClean(t: Transport, diff: Text)
    requires Clean(t, diff)
    ensures Clean(t, TruncateWithMarker(diff, MAX_EVENT_DIFF, DIFF_ELISION_MARKER))
  {
    hide Clean;
    var cut := CutPoint(diff, Max(0, MAX_EVENT_DIFF - |DIFF_ELISION_MARKER|));
    ElisionClean(t);
    assert diff == diff[..cut] + diff[cut..];
    CleanAppend(t, diff[..cut], diff[cut..]);
    CleanAppend(t, diff[..cut], DIFF_ELISION_MARKER);
  }

  lemma ElisionClean(t: Transport)
    ensures Clean(t, DIFF_ELISION_MARKER)
  {
  }

  /** Rendering parity: an event neither transport has to sanitize is the same
      block on both. */
  lemma TransportsAgree(e: Event)
    requires CleanEvent(Hook, e) && CleanEvent(Channel, e)
    ensures EventBlock(Hook, e) == EventBlock(Channel, e)
  {
    hide Clean, Blank;
    if e.diffText.Some? {
      CutClean(Hook, e.diffText.value);
      CutClean(Channel, e.diffText.value);
    }
    assert DetailLines(Hook, e) == DetailLines(Channel, e);
    assert Heading(Hook, e) == Heading(Channel, e);
  }
}
