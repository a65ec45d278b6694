/** What the recipient of a delivery reads, told from the event fields and the
    wording alone: which units may reach it, how a block splits into lines, and
    what stands in a whole text and in which order. */
module DeliveryReading {
  import opened Utf16
  import opened Options
  import opened Strings
  import opened DeliveryBlocks
  import opened DeliveryRender

  // ----- single units -----

  /** Raw controls but tab and newline, for the hook; what could close the tag or
      forge an attribute, for the channel. */
  predicate Forbidden(t: Transport, u: CodeUnit) {
    match t
    case Hook => u < 9 || 10 < u < 32 || 127 <= u < 160
    case Channel => u in [0x3c, 0x3e, 0x5b, 0x5d, 0x0d]
  }

  /** Unit by unit: what is allowed stays; the rest is dropped by the hook and
      becomes a space on the channel. */
  lemma SanitizeMeans(t: Transport, a: Text, u: CodeUnit, b: Text)
    ensures Sanitize(t, a + ([u] + b)) ==
            Sanitize(t, a) + (if !Forbidden(t, u) then [u] else if t.Hook? then [] else [0x20]) + Sanitize(t, b)
    ensures Sanitize(t, []) == []
  {
    hide Clean;
    SanitizeAppend(t, a, [u] + b);
    SanitizeAppend(t, [u], b);
    assert [u][1..] == [];
    var one := if !Forbidden(t, u) then [u] else if t.Hook? then [] else [0x20];
    assert Sanitize(t, [u]) == one + [] == one;
    Associate(Sanitize(t, a), one, Sanitize(t, b));
  }

  /** Nothing forbidden is in a text that counts as clean, and nothing else is
      kept out of one. */
  lemma CleanMeans(t: Transport, s: Text)
    ensures Clean(t, s) <==> forall i :: 0 <= i < |s| ==> !Forbidden(t, s[i])
  {
  }

  // ----- a block, line by line -----

  predicate OneLine(s: Text) { NL !in s }

  /** A text the transport shows as it is. */
  predicate Plainly(t: Transport, s: Text) { forall i :: 0 <= i < |s| ==> !Forbidden(t, s[i]) }

  /** Every field but the diff shows as it is and fits on a line. */
  predicate SingleLines(t: Transport, e: Event) {
    && Plainly(t, e.monitorId) && Plainly(t, e.urgency) && Plainly(t, e.title)
    && Plainly(t, e.body) && Plainly(t, e.summary)
    && OneLine(e.monitorId) && OneLine(e.urgency) && OneLine(e.title) && OneLine(e.body) && OneLine(e.summary)
    && (e.objectDetail.Some? ==> Plainly(t, e.objectDetail.value) && OneLine(e.objectDetail.value))
  }

  /** The lines between title and body: the object's detail, else the summary,
      unless title or body says it; then the summary, unless something above does. */
  function Extra(e: Event): seq<Text> {
    var detail := if e.objectDetail.Some? then e.objectDetail.value else e.summary;
    (if detail == [] || detail == e.title || detail == e.body then [] else [detail])
    + (if e.summary == [] || e.summary == e.title || e.summary == e.body || e.summary == detail then [] else [e.summary])
  }

  lemma SplitLine(line: Text, rest: Text)
    requires OneLine(line)
    ensures Split(line, NL) == [line] && Split(line + ([NL] + rest), NL) == [line] + Split(rest, NL)
  {
    SplitWhole(line, NL);
    SplitAppend(line, NL, rest);
  }

  lemma {:induction false} SplitLines(lines: seq<Text>, rest: Text)
    requires lines != [] && forall i :: 0 <= i < |lines| ==> OneLine(lines[i])
    ensures Split(Join([NL], lines) + ([NL] + rest), NL) == lines + Split(rest, NL)
  {
    hide Split, Join;
    SplitJoin(lines, NL);
    SplitAppend(Join([NL], lines), NL, rest);
  }

  lemma DetailIsExtra(t: Transport, e: Event)
    requires SingleLines(t, e)
    ensures DetailLines(t, e) == Extra(e) && forall i :: 0 <= i < |Extra(e)| ==> OneLine(Extra(e)[i])
  {
    hide Clean, Sanitize;
    FieldsShow(t, e);
  }

  lemma FieldsShow(t: Transport, e: Event)
    requires SingleLines(t, e)
    ensures Sanitize(t, e.monitorId) == e.monitorId && Sanitize(t, e.urgency) == e.urgency
    ensures Sanitize(t, e.title) == e.title && Sanitize(t, e.body) == e.body && Sanitize(t, e.summary) == e.summary
    ensures e.objectDetail.Some? ==> Sanitize(t, e.objectDetail.value) == e.objectDetail.value
  {
    CleanMeans(t, e.monitorId);
    CleanMeans(t, e.urgency);
    CleanMeans(t, e.title);
    CleanMeans(t, e.body);
    CleanMeans(t, e.summary);
    if e.objectDetail.Some? { CleanMeans(t, e.objectDetail.value); }
  }

  /** The first line: `### <monitor> (<urgency>)`. */
  function Headline(e: Event): Text {
    [0x23, 0x23, 0x23, 0x20] + e.monitorId + [0x20, 0x28] + e.urgency + [0x29]
  }

  lemma HeadingSplits(t: Transport, e: Event, rest: Text)
    requires SingleLines(t, e)
    ensures Split(Heading(t, e) + ([NL] + rest), NL) == [Headline(e), e.title] + Extra(e) + Split(rest, NL)
  {
    hide Split, Sanitize, DetailLines, Extra, Join;
    FieldsShow(t, e);
    DetailIsExtra(t, e);
    var lines := [Headline(e), e.title] + Extra(e);
    var above := Headline(e) + ([NL] + e.title);
    HeadlineText(t, e);
    assert OneLine(Headline(e));
    if Extra(e) == [] {
      assert Heading(t, e) == above;
      assert above + ([NL] + rest) == Headline(e) + ([NL] + (e.title + ([NL] + rest)));
      SplitLine(Headline(e), e.title + ([NL] + rest));
      SplitLine(e.title, rest);
    } else {
      var more := Join([NL], Extra(e)) + ([NL] + rest);
      assert Heading(t, e) + ([NL] + rest) == Headline(e) + ([NL] + (e.title + ([NL] + more)));
      SplitLine(Headline(e), e.title + ([NL] + more));
      SplitLine(e.title, more);
      SplitLines(Extra(e), rest);
    }
  }

  lemma HeadlineText(t: Transport, e: Event)
    requires SingleLines(t, e)
    ensures Heading(t, e) ==
            Headline(e) + ([NL] + e.title) + if Extra(e) == [] then [] else [NL] + Join([NL], Extra(e))
  {
    hide Sanitize, DetailLines, Extra, Join;
    FieldsShow(t, e);
    DetailIsExtra(t, e);
    assert Ascii("### ") == [0x23, 0x23, 0x23, 0x20] && Ascii(" (") == [0x20, 0x28];
    assert Ascii(")\n") == [0x29] + [NL];
  }

  // ----- a block, whatever its fields hold -----

  /** The event as it shows: every field but the diff as the transport shows it. */
  function Shown(t: Transport, e: Event): Event {
    Event(e.id, Sanitize(t, e.monitorId), Sanitize(t, e.urgency), Sanitize(t, e.title), Sanitize(t, e.body),
          Sanitize(t, e.summary), if e.objectDetail.Some? then Some(Sanitize(t, e.objectDetail.value)) else None, None)
  }

  /** Some unit of it is no white space. */
  predicate Says(s: Text) {
    exists i :: 0 <= i < |s| &&
      !(s[i] in [9, 10, 11, 12, 13, 32, 160, 5760, 8232, 8233, 8239, 8287, 12288, 65279] || 8192 <= s[i] <= 8202)
  }

  /** Every block: headline, title, extra lines, an empty line and the body, of the event
      as it shows, one under the other; and below, if the diff says anything, the changes. */
  lemma BlockMeans(t: Transport, e: Event)
    ensures var s := Shown(t, e);
            EventBlock(t, e) ==
            Headline(s) + ([NL] + s.title) + (if Extra(s) == [] then [] else [NL] + Join([NL], Extra(s)))
            + [NL, NL] + s.body
            + (if e.diffText.Some? && Says(e.diffText.value)
               then [NL, NL] + CHANGES + [NL] + ChangeSummary(t, e.diffText.value) else [])
  {
    hide Sanitize, Extra, Join, ChangeSummary, Ascii, DetailLines;
    var s := Shown(t, e);
    assert Ascii("### ") == [0x23, 0x23, 0x23, 0x20] && Ascii(" (") == [0x20, 0x28] && Ascii(")\n") == [0x29] + [NL] by {
      Literals();
    }
    ShownExtra(t, e);
    assert Heading(t, e) ==
           Headline(s) + ([NL] + s.title) + if Extra(s) == [] then [] else [NL] + Join([NL], Extra(s));
    ChangesTitle();
    if e.diffText.Some? { BlankMeans(e.diffText.value); }
  }

  lemma Literals()
    ensures Ascii("### ") == [0x23, 0x23, 0x23, 0x20] && Ascii(" (") == [0x20, 0x28] && Ascii(")\n") == [0x29] + [NL]
  {
  }

  lemma ShownExtra(t: Transport, e: Event)
    ensures DetailLines(t, e) == Extra(Shown(t, e))
  {
    hide Sanitize;
  }

  lemma BlankMeans(s: Text)
    ensures Blank(s) <==> !Says(s)
  {
  }

  /** A block without a diff, read line by line. */
  lemma BlockReads(t: Transport, e: Event)
    requires SingleLines(t, e)
    requires e.diffText.None? || forall i :: 0 <= i < |e.diffText.value| ==> e.diffText.value[i] == SPACE
    ensures Split(EventBlock(t, e), NL) == [Headline(e), e.title] + Extra(e) + [[], e.body]
  {
    hide Split, Sanitize, Heading, Extra, Headline;
    FieldsShow(t, e);
    assert Changes(t, e) == [];
    assert EventBlock(t, e) == Heading(t, e) + ([NL] + ([] + ([NL] + e.body)));
    HeadingSplits(t, e, [] + ([NL] + e.body));
    SplitLine([], e.body);
    SplitLine(e.body, []);
  }

  const CHANGES: Text := [0x43, 0x68, 0x61, 0x6e, 0x67, 0x65, 0x73, 0x3a]

  /** Some character of it leaves a mark. */
  predicate Visible(s: Text) { exists i :: 0 <= i < |s| && 0x20 < s[i] < 0x7f }

  /** A diff of at most 800 units follows whole, under its own heading. */
  lemma DiffReads(t: Transport, e: Event, diff: Text)
    requires SingleLines(t, e) && e.diffText == Some(diff) && Plainly(t, diff) && |diff| <= 800 && Visible(diff)
    ensures Split(EventBlock(t, e), NL) ==
            [Headline(e), e.title] + Extra(e) + [[], e.body, [], CHANGES] + Split(diff, NL)
  {
    hide Split, Sanitize, Heading, Extra, Headline, SingleLines, Plainly, Visible, ChangeSummary;
    BodyShows(t, e);
    ShortDiff(t, diff);
    var below := [] + ([NL] + (e.body + ([NL] + ([] + ([NL] + (CHANGES + ([NL] + diff)))))));
    DiffText(t, e, diff);
    HeadingSplits(t, e, below);
    FourLines([], e.body, [], CHANGES, diff);
  }

  /** `\n… (change summary truncated)` */
  const TRUNCATED: Text := [0x0a, 0x2026] + Ascii(" (change summary truncated)")

  /** A longer one is cut at the last code-point boundary that leaves room, within 800
      units, for saying so; what is left of a diff is then shown like any field. */
  lemma LongDiffReads(t: Transport, diff: Text) returns (cut: Text)
    ensures if |diff| <= 800 then cut == diff else CutBefore(diff, cut, 800, TRUNCATED)
    ensures ChangeSummary(t, diff) == Sanitize(t, cut) && (Plainly(t, diff) ==> Sanitize(t, cut) == cut)
  {
    hide Clean;
    cut := TruncateWithMarker(diff, 800, TRUNCATED);
    if Plainly(t, diff) {
      CleanMeans(t, diff);
      CutClean(t, diff);
    }
  }

  lemma BodyShows(t: Transport, e: Event)
    requires SingleLines(t, e)
    ensures Sanitize(t, e.body) == e.body && OneLine(e.body)
  {
    FieldsShow(t, e);
  }

  lemma DiffText(t: Transport, e: Event, diff: Text)
    requires Sanitize(t, e.body) == e.body && e.diffText == Some(diff) && ChangeSummary(t, diff) == diff && !Blank(diff)
    ensures EventBlock(t, e) ==
            Heading(t, e) + ([NL] + ([] + ([NL] + (e.body + ([NL] + ([] + ([NL] + (CHANGES + ([NL] + diff)))))))))
  {
    hide Sanitize, Heading, ChangeSummary, Blank, Ascii;
    ChangesTitle();
    var h := Heading(t, e);
    assert EventBlock(t, e) == h + [NL, NL] + e.body + ([NL, NL] + CHANGES + [NL] + diff);
    Nested(h, e.body, CHANGES, diff);
  }

  lemma ChangesTitle()
    ensures Ascii("\n\nChanges:\n") == [NL, NL] + CHANGES + [NL]
  {
  }

  lemma Nested(a: Text, b: Text, c: Text, d: Text)
    ensures a + [NL, NL] + b + ([NL, NL] + c + [NL] + d) ==
            a + ([NL] + ([] + ([NL] + (b + ([NL] + ([] + ([NL] + (c + ([NL] + d)))))))))
  {
    var tail := [NL] + ([] + ([NL] + (c + ([NL] + d))));
    assert [NL, NL] + c + [NL] + d == tail;
    assert [NL] + ([] + ([NL] + (b + tail))) == [NL, NL] + (b + tail);
    assert a + [NL, NL] + b + tail == a + ([NL, NL] + (b + tail));
  }

  lemma FourLines(a: Text, b: Text, c: Text, d: Text, rest: Text)
    requires OneLine(a) && OneLine(b) && OneLine(c) && OneLine(d)
    ensures Split(a + ([NL] + (b + ([NL] + (c + ([NL] + (d + ([NL] + rest))))))), NL) == [a, b, c, d] + Split(rest, NL)
  {
    hide Split;
    SplitLine(a, b + ([NL] + (c + ([NL] + (d + ([NL] + rest))))));
    SplitLine(b, c + ([NL] + (d + ([NL] + rest))));
    SplitLine(c, d + ([NL] + rest));
    SplitLine(d, rest);
  }

  lemma ShortDiff(t: Transport, diff: Text)
    requires Plainly(t, diff) && |diff| <= 800 && Visible(diff)
    ensures ChangeSummary(t, diff) == diff && !Blank(diff)
  {
    CleanMeans(t, diff);
    var i :| 0 <= i < |diff| && 0x20 < diff[i] < 0x7f;
    assert !IsSpace(diff[i]);
  }

  // ----- a whole text -----

  /** The blocks of `events` in order, a line feed between them on the hook and an
      empty line on the channel. */
  function BlockList(t: Transport, events: seq<Event>): Text {
    Join(if t.Hook? then [NL] else [NL, NL], seq(|events|, i requires 0 <= i < |events| => EventBlock(t, events[i])))
  }

  /** The header as it must be: on the hook it gives the ids of `events`, less their raw
      controls, and so names exactly them unless an id has a control or a comma. */
  ghost predicate RightHeader(t: Transport, w: Wording, events: seq<Event>, header: Text) {
    if t.Channel? then header == []
    else
      && header == w.lead + w.idsFlag + Sanitize(Hook, Join([0x2c], Ids(events))) + w.leadEnd
      && (Namable(events) ==> NamesExactly(header, w, events))
  }

  ghost function Ceiling(t: Transport): nat { if t.Hook? then 4000 else 20000 }

  /** What stands last: a coalesced reminder and the action step. */
  ghost function Reminding(t: Transport, w: Wording, claim: Claim): Text {
    if claim.reminder.None? || claim.reminder.value == [] then []
    else [NL, NL] + Sanitize(t, claim.reminder.value) + w.step
  }

  ghost function Deferring(t: Transport, w: Wording, claim: Claim): Text {
    if t.Hook? && claim.lifecycle.PostCompact? then w.recap else w.deferred
  }

  ghost function Truncating(t: Transport, w: Wording, claim: Claim): Text {
    if t.Hook? && claim.lifecycle.PostCompact? then w.recap else w.truncated
  }

  lemma AssembledReads(t: Transport, w: Wording, events: seq<Event>) returns (header: Text)
    requires events != []
    ensures Assembled(t, w, events) == header + BlockList(t, events) && RightHeader(t, w, events, header)
  {
    hide Join, EventBlock, Namable, NamesExactly;
    header := Header(t, w, events);
    if t.Hook? { HeaderNames(w, events); }
  }

  /** The text of a claim of which `shown` leading events are shown whole: a header
      naming exactly those, their blocks, the deferred marker unless all is shown and
      nothing more was deferred, and the reminder. */
  lemma TextReads(t: Transport, w: Wording, claim: Claim, moreDeferred: bool) returns (header: Text)
    requires claim.events != [] && ShownWhole(t, w, claim, moreDeferred) > 0
    ensures var shown := ShownWhole(t, w, claim, moreDeferred);
            && shown <= |claim.events| && RightHeader(t, w, claim.events[..shown], header)
            && RenderEvents(t, w, claim, moreDeferred) ==
               header + BlockList(t, claim.events[..shown])
               + (if shown == |claim.events| && !moreDeferred then [] else Deferring(t, w, claim))
               + Reminding(t, w, claim)
  {
    hide RenderEvents, ShownWhole, Assembled, RightHeader, BlockList, Sanitize;
    RenderShowsPrefix(t, w, claim, moreDeferred);
    header := AssembledReads(t, w, claim.events[..ShownWhole(t, w, claim, moreDeferred)]);
  }

  /** Otherwise the header and block of the first event alone, cut at the last
      code-point boundary that leaves room for what follows: its marker, the deferred
      marker if more was deferred and it says something else, and the reminder. */
  lemma CutTextReads(t: Transport, w: Wording, claim: Claim, moreDeferred: bool) returns (header: Text, cut: nat)
    requires claim.events != [] && ShownWhole(t, w, claim, moreDeferred) == 0
    ensures var first := header + EventBlock(t, claim.events[0]);
            var last := Truncating(t, w, claim)
                        + (if moreDeferred && (t.Channel? || Truncating(t, w, claim) != Deferring(t, w, claim))
                           then Deferring(t, w, claim) else [])
                        + Reminding(t, w, claim);
            && RightHeader(t, w, [claim.events[0]], header)
            && cut <= |first| && !Splits(first, cut)
            && RenderEvents(t, w, claim, moreDeferred) == first[..cut] + last
            && (cut > 0 ==> cut + |last| <= Ceiling(t))
            && forall j :: cut < j <= |first| && j + |last| <= Ceiling(t) ==> Splits(first, j)
  {
    hide RenderEvents, ShownWhole, Assembled, RightHeader, Sanitize, EventBlock, CutPoint, Splits, MaxContent, Ceiling,
      Truncating, Deferring, Reminding, Footer, SoleMarker, BlockList;
    RenderCutsFirst(t, w, claim, moreDeferred);
    assert claim.events[..1] == [claim.events[0]];
    header := AssembledReads(t, w, [claim.events[0]]);
    OneBlock(t, claim.events[0]);
    var footer, sole := Footer(t, w, claim), SoleMarker(t, w, claim, moreDeferred);
    var first := Assembled(t, w, claim.events[..1]);
    LastMeans(t, w, claim, moreDeferred);
    cut := CutPoint(first, MaxContent(t) - |footer| - |sole|);
    assert first[..cut] + sole + footer == first[..cut] + (sole + footer);
  }

  /** What follows the cut block. */
  lemma LastMeans(t: Transport, w: Wording, claim: Claim, moreDeferred: bool)
    ensures SoleMarker(t, w, claim, moreDeferred) + Footer(t, w, claim) ==
            Truncating(t, w, claim)
            + (if moreDeferred && (t.Channel? || Truncating(t, w, claim) != Deferring(t, w, claim))
               then Deferring(t, w, claim) else [])
            + Reminding(t, w, claim)
    ensures MaxContent(t) == Ceiling(t)
  {
    hide Sanitize;
    var truncated := Truncating(t, w, claim);
    assert truncated + [] == truncated;
  }

  lemma OneBlock(t: Transport, e: Event)
    ensures BlockList(t, [e]) == EventBlock(t, e)
  {
  }

  /** How many events are shown whole: all if they fit with any marker that applies
      and the reminder, otherwise the most that fit with the deferred marker. */
  lemma ShownReads(t: Transport, w: Wording, claim: Claim, moreDeferred: bool, k: nat)
    requires claim.events != [] && 0 < k <= |claim.events|
    ensures var shown, taken := ShownWhole(t, w, claim, moreDeferred), |Reminding(t, w, claim)|;
            var all := |Assembled(t, w, claim.events)| + taken + if moreDeferred then |Deferring(t, w, claim)| else 0;
            && (shown == |claim.events| <==> all <= Ceiling(t))
            && (all > Ceiling(t) ==>
                  (k <= shown <==> |Assembled(t, w, claim.events[..k])| + |Deferring(t, w, claim)| + taken <= Ceiling(t)))
  {
    hide Assembled, Sanitize;
    WholeIffRoom(t, w, claim, moreDeferred);
    var shown := ShownWhole(t, w, claim, moreDeferred);
    if k <= shown { FitsDownward(t, w, claim.events, k, shown); }
  }

  /** A claim without events: its advisory message, attributed on the hook, and the
      action step; nothing at all on the hook if that message is blank. */
  lemma MessageReads(t: Transport, w: Wording, claim: Claim, moreDeferred: bool)
    requires claim.events == []
    ensures var message := Sanitize(t, claim.message);
            var line := (if t.Hook? then w.attribution else []) + message + w.step;
            var text := Render(t, w, claim, moreDeferred);
            && (text.None? <==> t.Hook? && forall i :: 0 <= i < |message| ==> IsSpace(message[i]))
            && (text.Some? && |line| <= Ceiling(t) ==> text.value == line)
            && (text.Some? && |line| > Ceiling(t) ==> CutBefore(line, text.value, Ceiling(t), Truncating(t, w, claim)))
  {
    hide Sanitize, IsSpace;
  }

  /** What `trim` takes for white space. */
  lemma SpaceMeans(u: CodeUnit)
    ensures IsSpace(u) <==>
            u in [9, 10, 11, 12, 13, 32, 160, 5760, 8232, 8233, 8239, 8287, 12288, 65279] || 8192 <= u <= 8202
  {
  }
}
