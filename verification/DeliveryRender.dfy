/** The two injecting transports' renderers: whole blocks packed under a cap,
    a hook header whose length depends on the ids it names, markers, and the
    footer of a coalesced reminder. Human wording is a parameter. */
module DeliveryRender {
  import opened Utf16
  import opened Options
  import opened Strings
  import opened DeliveryBlocks

  datatype Lifecycle = TurnInterruptible | TurnIdle | PostCompact

  datatype Claim = Claim(lifecycle: Lifecycle, events: seq<Event>, message: Text, reminder: Option<Text>)

  /** What a transport says around the blocks for one session and socket. */
  datatype Wording = Wording(lead: Text, idsFlag: Text, leadEnd: Text, attribution: Text, step: Text,
                             deferred: Text, truncated: Text, recap: Text)

  type Block = b: Text | b != [] witness [HASH]

  const HASH: CodeUnit := 0x23
  const COMMA: CodeUnit := 0x2c

  const MAX_ADDITIONAL_CONTEXT := 4000
  const MAX_CHANNEL_CONTENT := 20000

  function MaxContent(t: Transport): nat { if t.Hook? then MAX_ADDITIONAL_CONTEXT else MAX_CHANNEL_CONTENT }

  function Joiner(t: Transport): Text { if t.Hook? then [NL] else [NL, NL] }

  function Ids(events: seq<Event>): seq<Text> { seq(|events|, i requires 0 <= i < |events| => events[i].id) }

  function Blocks(t: Transport, events: seq<Event>): (bs: seq<Block>)
    ensures |bs| == |events|
  {
    seq(|events|, i requires 0 <= i < |events| => EventBlock(t, events[i]))
  }

  /** The hook's header names exactly the ids of `events`; the channel has none. */
  function Header(t: Transport, w: Wording, events: seq<Event>): Text {
    if t.Channel? then []
    else w.lead + (if events == [] then [] else w.idsFlag + Sanitize(Hook, Join([COMMA], Ids(events)))) + w.leadEnd
  }

  /** `events` in full: the header naming them and all their blocks. */
  function Assembled(t: Transport, w: Wording, events: seq<Event>): Text {
    Header(t, w, events) + Join(Joiner(t), Blocks(t, events))
  }

  /** Ids the ack instruction can name: without commas or raw controls. */
  ghost predicate Namable(events: seq<Event>) {
    forall e :: e in events ==>
      COMMA !in e.id && forall i :: 0 <= i < |e.id| ==> e.id[i] >= 0x20 && !(0x7f <= e.id[i] <= 0x9f)
  }

  /** A hook header that names exactly the ids of `events`: whoever splits what
      stands after the ids flag gets them back, one by one. */
  ghost predicate NamesExactly(header: Text, w: Wording, events: seq<Event>) {
    exists named ::
      && header == w.lead + w.idsFlag + named + w.leadEnd
      && |Split(named, COMMA)| == |events| && forall i :: 0 <= i < |events| ==> Split(named, COMMA)[i] == events[i].id
  }

  /** The header names exactly the ids of its events, and none without events. */
  lemma HeaderNames(w: Wording, events: seq<Event>)
    ensures events == [] ==> Header(Hook, w, events) == w.lead + w.leadEnd
    ensures events != [] ==>
              Header(Hook, w, events) == w.lead + w.idsFlag + Sanitize(Hook, Join([0x2c], Ids(events))) + w.leadEnd
    ensures events != [] && Namable(events) ==> NamesExactly(Header(Hook, w, events), w, events)
  {
    hide Sanitize, Join, Split;
    if events == [] {
      assert w.lead + [] == w.lead;
    } else {
      var named := Sanitize(Hook, Join([COMMA], Ids(events)));
      assert w.lead + (w.idsFlag + named) + w.leadEnd == w.lead + w.idsFlag + named + w.leadEnd;
      if Namable(events) {
        NamedIdsReadBack(events);
        assert forall i :: 0 <= i < |events| ==> Ids(events)[i] == events[i].id;
      }
    }
  }

  lemma NamedIdsReadBack(events: seq<Event>)
    requires events != [] && Namable(events)
    ensures Split(Sanitize(Hook, Join([COMMA], Ids(events))), COMMA) == Ids(events)
  {
    var ids := Ids(events);
    forall id | id in ids ensures Clean(Hook, id) && COMMA !in id {
      var i :| 0 <= i < |ids| && ids[i] == id;
      assert events[i] in events;
    }
    JoinClean(Hook, [COMMA], ids);
    SplitJoin(ids, COMMA);
  }

  // ----- packing -----

  /** Greedy accumulation of whole blocks under a fixed header. */
  method PackWholeBlocks(blocks: seq<Block>, cap: int, header: Text, joiner: Text)
    returns (text: Text, includedCount: nat)
    ensures includedCount <= |blocks| && text == header + Join(joiner, blocks[..includedCount])
    ensures forall k :: 0 < k <= includedCount ==> |header| + |Join(joiner, blocks[..k])| <= cap
    ensures forall k :: includedCount < k <= |blocks| ==> |header| + |Join(joiner, blocks[..k])| > cap
  {
    hide Join;
    var body: Text := [];
    JoinNone(joiner, blocks[..0]);
    includedCount := 0;
    while includedCount < |blocks|
      invariant includedCount <= |blocks| && body == Join(joiner, blocks[..includedCount])
      invariant body == [] <==> includedCount == 0
      invariant forall k :: 0 < k <= includedCount ==> |header| + |Join(joiner, blocks[..k])| <= cap
    {
      var block := blocks[includedCount];
      var candidate := if body == [] then block else body + joiner + block;
      JoinSnoc(joiner, blocks, includedCount);
      if |header + candidate| > cap {
        JoinGrows(joiner, blocks, includedCount + 1);
        break;
      }
      body := candidate;
      includedCount := includedCount + 1;
    }
    text := header + body;
  }

  /** The lengths of every prefix's assembly. */
  function Sizes(t: Transport, w: Wording, events: seq<Event>): (sizes: seq<nat>)
    ensures |sizes| == |events| + 1
    ensures forall k :: 0 <= k <= |events| ==> sizes[k] == |Assembled(t, w, events[..k])|
  {
    seq(|events| + 1, k requires 0 <= k <= |events| => |Assembled(t, w, events[..k])|)
  }

  function LargestFit(sizes: seq<nat>, cap: int, limit: nat): (k: nat)
    requires limit < |sizes|
    ensures k <= limit && (k > 0 ==> sizes[k] <= cap)
    ensures forall j :: k < j <= limit ==> sizes[j] > cap
  {
    if limit == 0 || sizes[limit] <= cap then limit else LargestFit(sizes, cap, limit - 1)
  }

  /** The largest number of leading events whose assembly fits `cap`, or 0. */
  function FitCount(t: Transport, w: Wording, events: seq<Event>, cap: int): (k: nat)
    ensures k <= |events| && (k > 0 ==> |Assembled(t, w, events[..k])| <= cap)
    ensures forall j :: k < j <= |events| ==> |Assembled(t, w, events[..j])| > cap
  {
    LargestFit(Sizes(t, w, events), cap, |events|)
  }

  lemma IdsTake(events: seq<Event>, k: nat)
    requires k <= |events|
    ensures Ids(events[..k]) == Ids(events)[..k]
  {
  }

  lemma BlocksTake(t: Transport, events: seq<Event>, k: nat)
    requires k <= |events|
    ensures Blocks(t, events[..k]) == Blocks(t, events)[..k]
  {
  }

  lemma HeaderGrows(t: Transport, w: Wording, events: seq<Event>, k: nat)
    requires k < |events|
    ensures |Header(t, w, events[..k])| <= |Header(t, w, events[..k + 1])|
  {
    hide Sanitize, Join;
    if t.Hook? && k > 0 {
      var ids := Ids(events);
      IdsTake(events, k);
      IdsTake(events, k + 1);
      JoinSnoc([COMMA], ids, k);
      var front := Join([COMMA], ids[..k]);
      Associate(front, [COMMA], ids[k]);
      SanitizeAppend(Hook, front, [COMMA] + ids[k]);
    }
  }

  /** One more event always makes the assembly longer, header included. */
  lemma AssemblyGrows(t: Transport, w: Wording, events: seq<Event>, k: nat)
    requires k < |events|
    ensures |Assembled(t, w, events[..k])| < |Assembled(t, w, events[..k + 1])|
  {
    hide Join, Header, Blocks;
    HeaderGrows(t, w, events, k);
    BlocksTake(t, events, k);
    BlocksTake(t, events, k + 1);
    JoinSnoc(Joiner(t), Blocks(t, events), k);
    JoinNone(Joiner(t), Blocks(t, events)[..0]);
  }

  /** Feasibility is downward closed although the header grows with `k`. */
  lemma {:induction false} FitsDownward(t: Transport, w: Wording, events: seq<Event>, j: nat, k: nat)
    requires j <= k <= |events|
    ensures |Assembled(t, w, events[..j])| + (k - j) <= |Assembled(t, w, events[..k])|
    decreases k - j
  {
    hide Assembled;
    if j < k {
      AssemblyGrows(t, w, events, j);
      FitsDownward(t, w, events, j + 1, k);
    }
  }

  /** The hook's descent over `k`: the first self-consistent candidate is the
      largest feasible one, and the header names exactly the events packed. */
  method ResolveHookHeaderPacking(w: Wording, events: seq<Event>, cap: int)
    returns (text: Text, includedCount: nat, header: Text)
    ensures includedCount == FitCount(Hook, w, events, cap)
    ensures header == Header(Hook, w, events[..includedCount])
    ensures text == Assembled(Hook, w, events[..includedCount]) && header <= text
    ensures includedCount == 0 ==> header == w.lead + w.leadEnd
    ensures includedCount > 0 && Namable(events[..includedCount]) ==> NamesExactly(header, w, events[..includedCount])
  {
    hide Join, Header, Blocks, Namable, NamesExactly;
    var blocks := Blocks(Hook, events);
    var k := |events|;
    while true
      invariant 0 <= k <= |events|
      invariant forall j :: k < j <= |events| ==> |Assembled(Hook, w, events[..j])| > cap
      decreases k
    {
      header := Header(Hook, w, events[..k]);
      BlocksTake(Hook, events, k);
      var packed, packedCount := PackWholeBlocks(blocks[..k], cap, header, Joiner(Hook));
      assert blocks[..k][..k] == blocks[..k];
      if packedCount == k {
        HeaderNames(w, events[..k]);
        return packed, k, header;
      }
      k := k - 1;
    }
  }

  /** The channel's packing: greedy is already the largest prefix. */
  method PackChannelBlocks(w: Wording, events: seq<Event>, cap: int) returns (text: Text, includedCount: nat)
    ensures includedCount == FitCount(Channel, w, events, cap)
    ensures text == Assembled(Channel, w, events[..includedCount])
  {
    hide Join, Blocks;
    var blocks := Blocks(Channel, events);
    text, includedCount := PackWholeBlocks(blocks, cap, [], Joiner(Channel));
    forall k | 0 <= k <= |events|
      ensures Assembled(Channel, w, events[..k]) == [] + Join(Joiner(Channel), blocks[..k])
    {
      BlocksTake(Channel, events, k);
    }
  }

  // ----- sizing -----

  datatype ClaimFit = ClaimFit(fits: bool, includedCount: nat, whole: nat, reserved: nat)

  /** Whether the renderer will show every block of a claim whole, and how many
      fit the budget it will use. */
  function ResolveClaimFit(t: Transport, w: Wording, events: seq<Event>, moreDeferred: bool, cap: int,
                           deferredMarker: Text): ClaimFit {
    var whole := FitCount(t, w, events, cap);
    var reserved := FitCount(t, w, events, cap - |deferredMarker|);
    if whole == |events| && !moreDeferred then ClaimFit(true, |events|, whole, reserved)
    else
      var includedCount := Max(1, reserved);
      ClaimFit(includedCount == |events|, includedCount, whole, reserved)
  }

  /** How many of the previewed events to reserve. */
  function PackEventsUnderCap(t: Transport, w: Wording, events: seq<Event>, cap: int): nat {
    if events == [] then 0
    else if FitCount(t, w, events, cap) == |events| then |events|
    else Max(1, FitCount(t, w, events, cap - |w.deferred|))
  }

  // ----- rendering -----

  predicate HasReminder(claim: Claim) { claim.reminder.Some? && claim.reminder.value != [] }

  function Footer(t: Transport, w: Wording, claim: Claim): Text {
    if HasReminder(claim) then [NL, NL] + Sanitize(t, claim.reminder.value) + w.step else []
  }

  /** What the reserve loops keep free for that footer. */
  function ReminderReserve(reminder: Option<Text>): nat {
    if reminder.Some? && reminder.value != [] then |reminder.value| + 2 else 0
  }

  function DeferredMarker(t: Transport, w: Wording, claim: Claim): Text {
    if t.Hook? && claim.lifecycle.PostCompact? then w.recap else w.deferred
  }

  function TruncatedMarker(t: Transport, w: Wording, claim: Claim): Text {
    if t.Hook? && claim.lifecycle.PostCompact? then w.recap else w.truncated
  }

  /** What follows a lone block that had to be cut. */
  function SoleMarker(t: Transport, w: Wording, claim: Claim, moreDeferred: bool): Text {
    var truncated, deferred := TruncatedMarker(t, w, claim), DeferredMarker(t, w, claim);
    if moreDeferred && (t.Channel? || truncated != deferred) then truncated + deferred else truncated
  }

  /** The first event alone, cut to what its markers and the footer leave. */
  function CutFirst(t: Transport, w: Wording, claim: Claim, moreDeferred: bool): Text
    requires claim.events != []
  {
    var effectiveCap := MaxContent(t) - |Footer(t, w, claim)|;
    AppendMarkerWithinCap(Assembled(t, w, claim.events[..1]), effectiveCap, SoleMarker(t, w, claim, moreDeferred))
  }

  function RenderEvents(t: Transport, w: Wording, claim: Claim, moreDeferred: bool): Text
    requires claim.events != []
  {
    var footer, deferred := Footer(t, w, claim), DeferredMarker(t, w, claim);
    var effectiveCap := MaxContent(t) - |footer|;
    var fit := ResolveClaimFit(t, w, claim.events, moreDeferred, effectiveCap, deferred);
    if fit.whole == |claim.events| && !moreDeferred then
      Assembled(t, w, claim.events) + footer
    else if fit.reserved >= 1 then
      Assembled(t, w, claim.events[..fit.reserved]) + deferred + footer
    else
      CutFirst(t, w, claim, moreDeferred) + footer
  }

  /** A claim without events carries only its advisory message. */
  function ReminderLine(t: Transport, w: Wording, claim: Claim): Text {
    (if t.Hook? then w.attribution else []) + Sanitize(t, claim.message) + w.step
  }

  function Render(t: Transport, w: Wording, claim: Claim, moreDeferred: bool): Option<Text> {
    if claim.events != [] then Some(RenderEvents(t, w, claim, moreDeferred))
    else if t.Hook? && Blank(Sanitize(t, claim.message)) then None
    else Some(TruncateWithMarker(ReminderLine(t, w, claim), MaxContent(t), TruncatedMarker(t, w, claim)))
  }

  // ----- what the renderers promise -----

  /** How many of the claim's blocks the rendering shows whole. */
  ghost function ShownWhole(t: Transport, w: Wording, claim: Claim, moreDeferred: bool): nat {
    var effectiveCap := MaxContent(t) - |Footer(t, w, claim)|;
    if FitCount(t, w, claim.events, effectiveCap) == |claim.events| && !moreDeferred then |claim.events|
    else FitCount(t, w, claim.events, effectiveCap - |DeferredMarker(t, w, claim)|)
  }

  ghost function MarkerLength(t: Transport, w: Wording, claim: Claim, moreDeferred: bool): nat {
    if moreDeferred then |DeferredMarker(t, w, claim)| else 0
  }

  /** The room a claim needs to be shown whole, footer aside. */
  ghost function Room(t: Transport, w: Wording, claim: Claim, moreDeferred: bool): nat {
    |Assembled(t, w, claim.events)| + MarkerLength(t, w, claim, moreDeferred)
  }

  lemma FitsIffSmall(t: Transport, w: Wording, events: seq<Event>, cap: int)
    requires events != []
    ensures FitCount(t, w, events, cap) == |events| <==> |Assembled(t, w, events)| <= cap
  {
    hide Assembled;
    assert events[..|events|] == events;
  }

  lemma FitCountMonotone(t: Transport, w: Wording, events: seq<Event>, low: int, high: int)
    requires low <= high
    ensures FitCount(t, w, events, low) <= FitCount(t, w, events, high)
  {
  }

  /** A claim is shown whole exactly when it fits with its marker and footer. */
  lemma WholeIffRoom(t: Transport, w: Wording, claim: Claim, moreDeferred: bool)
    requires claim.events != []
    ensures ShownWhole(t, w, claim, moreDeferred) <= |claim.events|
    ensures ShownWhole(t, w, claim, moreDeferred) == |claim.events| <==>
            Room(t, w, claim, moreDeferred) + |Footer(t, w, claim)| <= MaxContent(t)
  {
    hide Assembled, Footer, DeferredMarker, MaxContent;
    var effectiveCap := MaxContent(t) - |Footer(t, w, claim)|;
    FitsIffSmall(t, w, claim.events, effectiveCap);
    FitsIffSmall(t, w, claim.events, effectiveCap - |DeferredMarker(t, w, claim)|);
  }

  /** What the recipient sees when some block is whole: the header names exactly
      the events shown, and the deferred marker appears unless everything is
      shown and nothing was deferred. */
  lemma RenderShowsPrefix(t: Transport, w: Wording, claim: Claim, moreDeferred: bool)
    requires claim.events != [] && ShownWhole(t, w, claim, moreDeferred) > 0
    ensures var shown := ShownWhole(t, w, claim, moreDeferred);
            && shown <= |claim.events|
            && RenderEvents(t, w, claim, moreDeferred) ==
               Assembled(t, w, claim.events[..shown])
               + (if shown == |claim.events| && !moreDeferred then [] else DeferredMarker(t, w, claim))
               + Footer(t, w, claim)
  {
    hide Assembled, Footer, SoleMarker, DeferredMarker, FitCount, MaxContent;
    var all := Assembled(t, w, claim.events);
    assert claim.events[..|claim.events|] == claim.events;
    assert all + [] == all;
    var effectiveCap := MaxContent(t) - |Footer(t, w, claim)|;
    FitCountMonotone(t, w, claim.events, effectiveCap - |DeferredMarker(t, w, claim)|, effectiveCap);
  }

  /** Otherwise the first block is cut at the last code-point boundary within
      what its markers and the footer leave. */
  lemma RenderCutsFirst(t: Transport, w: Wording, claim: Claim, moreDeferred: bool)
    requires claim.events != [] && ShownWhole(t, w, claim, moreDeferred) == 0
    ensures var footer, sole := Footer(t, w, claim), SoleMarker(t, w, claim, moreDeferred);
            var first := Assembled(t, w, claim.events[..1]);
            var cut := CutPoint(first, MaxContent(t) - |footer| - |sole|);
            RenderEvents(t, w, claim, moreDeferred) == first[..cut] + sole + footer
  {
    hide Assembled, Footer, SoleMarker, RenderEvents, ShownWhole, MaxContent, AppendMarkerWithinCap;
    CutBranch(t, w, claim, moreDeferred);
    var effectiveCap := MaxContent(t) - |Footer(t, w, claim)|;
    AppendIsCut(Assembled(t, w, claim.events[..1]), effectiveCap, SoleMarker(t, w, claim, moreDeferred));
  }

  lemma CutBranch(t: Transport, w: Wording, claim: Claim, moreDeferred: bool)
    requires claim.events != [] && ShownWhole(t, w, claim, moreDeferred) == 0
    ensures RenderEvents(t, w, claim, moreDeferred) == CutFirst(t, w, claim, moreDeferred) + Footer(t, w, claim)
  {
    hide Assembled, Footer, SoleMarker, DeferredMarker, FitCount, MaxContent, CutFirst;
  }

  lemma AppendIsCut(body: Text, cap: int, marker: Text)
    ensures AppendMarkerWithinCap(body, cap, marker) == body[..CutPoint(body, cap - |marker|)] + marker
  {
    assert CutPoint(body, Max(0, cap - |marker|)) == CutPoint(body, cap - |marker|);
    assert body[..|body|] == body;
  }

  predicate EndsWith(text: Text, suffix: Text) {
    |suffix| <= |text| && text[|text| - |suffix|..] == suffix
  }

  lemma EndsWithTail(head: Text, tail: Text)
    ensures EndsWith(head + tail, tail)
  {
  }

  /** A rendering that leaves events out, or hides that more was deferred, says
      so last of all but the footer: after a cut block stands its own marker, and
      beside it the deferred one unless the two say the same. */
  lemma BothFactsSignposted(t: Transport, w: Wording, claim: Claim, moreDeferred: bool)
    requires claim.events != []
    ensures var text, shown := RenderEvents(t, w, claim, moreDeferred), ShownWhole(t, w, claim, moreDeferred);
            var footer := Footer(t, w, claim);
            var truncated, deferred := TruncatedMarker(t, w, claim), DeferredMarker(t, w, claim);
            && (shown > 0 && (moreDeferred || shown < |claim.events|) ==> EndsWith(text, deferred + footer))
            && (shown == 0 && !moreDeferred ==> EndsWith(text, truncated + footer))
            && (shown == 0 && moreDeferred ==>
                  EndsWith(text, truncated + deferred + footer)
                  || (t.Hook? && truncated == deferred && EndsWith(text, truncated + footer)))
  {
    hide Assembled, Footer, DeferredMarker, TruncatedMarker, RenderEvents, ShownWhole, EndsWith, MaxContent;
    var shown, footer := ShownWhole(t, w, claim, moreDeferred), Footer(t, w, claim);
    if shown > 0 {
      RenderShowsPrefix(t, w, claim, moreDeferred);
      var head, marker := Assembled(t, w, claim.events[..shown]), DeferredMarker(t, w, claim);
      assert head + marker + footer == head + (marker + footer);
      EndsWithTail(head, marker + footer);
    } else {
      RenderCutsFirst(t, w, claim, moreDeferred);
      var first, sole := Assembled(t, w, claim.events[..1]), SoleMarker(t, w, claim, moreDeferred);
      var head := first[..CutPoint(first, MaxContent(t) - |footer| - |sole|)];
      assert head + sole + footer == head + (sole + footer);
      EndsWithTail(head, sole + footer);
    }
  }

  /** The fit test: it accepts single events and what fits the given cap. */
  lemma FitMeans(t: Transport, w: Wording, events: seq<Event>, moreDeferred: bool, cap: int, marker: Text)
    requires events != []
    ensures var fit := ResolveClaimFit(t, w, events, moreDeferred, cap, marker);
            && (fit.fits <==> |events| == 1 || |Assembled(t, w, events)| + (if moreDeferred then |marker| else 0) <= cap)
            && 1 <= fit.includedCount <= |events|
            && (fit.fits <==> fit.includedCount == |events|)
            && (!fit.fits ==>
                  && (fit.includedCount > 1 ==> |Assembled(t, w, events[..fit.includedCount])| + |marker| <= cap)
                  && forall k :: fit.includedCount < k <= |events| ==> |Assembled(t, w, events[..k])| + |marker| > cap)
  {
    hide Assembled;
    FitsIffSmall(t, w, events, cap);
    FitsIffSmall(t, w, events, cap - |marker|);
    FitCountMonotone(t, w, events, cap - |marker|, cap);
  }

  /** Acceptance by the reserve loop, as the loop tests it. */
  ghost predicate Accepts(t: Transport, w: Wording, claim: Claim, moreDeferred: bool) {
    ResolveClaimFit(t, w, claim.events, moreDeferred, MaxContent(t) - ReminderReserve(claim.reminder), w.deferred).fits
  }

  /** Fit and render agree on every ordinary claim without a coalesced reminder:
      an accepted claim is shown whole, save a lone block over budget by itself. */
  lemma AcceptedIsShownWhole(t: Transport, w: Wording, claim: Claim, moreDeferred: bool)
    requires claim.events != [] && !HasReminder(claim) && !claim.lifecycle.PostCompact?
    ensures Accepts(t, w, claim, moreDeferred) <==>
            |claim.events| == 1 || ShownWhole(t, w, claim, moreDeferred) == |claim.events|
  {
    hide Assembled, RenderEvents;
    FitMeans(t, w, claim.events, moreDeferred, MaxContent(t), w.deferred);
    WholeIffRoom(t, w, claim, moreDeferred);
  }

  /** With a coalesced reminder the loop reserves too little. It accepts a claim
      of several events that is then not shown whole exactly when the claim's
      room lands between what the loop reserves and what the footer takes. */
  lemma AcceptedButCutIff(t: Transport, w: Wording, claim: Claim, moreDeferred: bool)
    requires |claim.events| > 1 && !claim.lifecycle.PostCompact?
    ensures Accepts(t, w, claim, moreDeferred) && ShownWhole(t, w, claim, moreDeferred) < |claim.events| <==>
            && Room(t, w, claim, moreDeferred) + ReminderReserve(claim.reminder) <= MaxContent(t)
            && MaxContent(t) < Room(t, w, claim, moreDeferred) + |Footer(t, w, claim)|
  {
    hide Assembled, RenderEvents, Footer, ReminderReserve, MaxContent, ShownWhole, ResolveClaimFit;
    FitMeans(t, w, claim.events, moreDeferred, MaxContent(t) - ReminderReserve(claim.reminder), w.deferred);
    WholeIffRoom(t, w, claim, moreDeferred);
  }

  /** The footer is what the loop reserves plus the action step, less the
      controls the hook strips from the reminder. */
  lemma FooterLength(t: Transport, w: Wording, claim: Claim)
    requires HasReminder(claim)
    ensures |Footer(t, w, claim)| ==
            ReminderReserve(claim.reminder) + |w.step| - (|claim.reminder.value| - |Sanitize(t, claim.reminder.value)|)
  {
  }

  /** Which marker a rendering may have to fit beside its footer. */
  ghost function LongestMarker(t: Transport, w: Wording, claim: Claim, moreDeferred: bool): Text {
    if claim.events == [] then TruncatedMarker(t, w, claim) else SoleMarker(t, w, claim, moreDeferred)
  }

  lemma EventsWithinCap(t: Transport, w: Wording, claim: Claim, moreDeferred: bool)
    requires claim.events != []
    ensures |RenderEvents(t, w, claim, moreDeferred)| <= MaxContent(t) <==>
            ShownWhole(t, w, claim, moreDeferred) > 0
            || |SoleMarker(t, w, claim, moreDeferred)| + |Footer(t, w, claim)| <= MaxContent(t)
  {
    hide Assembled, Footer, SoleMarker, DeferredMarker, MaxContent, RenderEvents;
    var shown := ShownWhole(t, w, claim, moreDeferred);
    if shown > 0 {
      RenderShowsPrefix(t, w, claim, moreDeferred);
      WholeIffRoom(t, w, claim, moreDeferred);
      assert claim.events[..|claim.events|] == claim.events;
    } else {
      RenderCutsFirst(t, w, claim, moreDeferred);
    }
  }

  /** The ceiling holds on every branch exactly when no cut was needed or the
      marker and the footer alone fit it. */
  lemma RenderWithinCap(t: Transport, w: Wording, claim: Claim, moreDeferred: bool)
    requires Render(t, w, claim, moreDeferred).Some?
    ensures var text := Render(t, w, claim, moreDeferred).value;
            var footer := if claim.events == [] then [] else Footer(t, w, claim);
            var uncut := if claim.events == [] then |ReminderLine(t, w, claim)| <= MaxContent(t)
                         else ShownWhole(t, w, claim, moreDeferred) > 0;
            |text| <= MaxContent(t) <==> uncut || |LongestMarker(t, w, claim, moreDeferred)| + |footer| <= MaxContent(t)
  {
    hide Footer, SoleMarker, TruncatedMarker, ReminderLine, MaxContent, RenderEvents, ShownWhole;
    if claim.events != [] { EventsWithinCap(t, w, claim, moreDeferred); }
  }

  /** The first `j` previewed events as a claim, with the previewed reminder. */
  function Prefix(preview: seq<Event>, j: nat, reminder: Option<Text>): Claim
    requires j <= |preview|
  {
    Claim(TurnInterruptible, preview[..j], [], reminder)
  }

  /** What a first, undisturbed attempt reserves: the largest prefix of the
      preview the loop accepts. Without a reminder that is the largest one the
      renderer would show whole, or one event. */
  lemma FirstAttemptIsLargest(t: Transport, w: Wording, preview: seq<Event>, reminder: Option<Text>)
    requires preview != []
    ensures var k := PackEventsUnderCap(t, w, preview, MaxContent(t) - ReminderReserve(reminder));
            && 1 <= k <= |preview|
            && Accepts(t, w, Prefix(preview, k, reminder), k < |preview|)
            && (forall j :: k < j <= |preview| ==> !Accepts(t, w, Prefix(preview, j, reminder), j < |preview|))
            && (ReminderReserve(reminder) == 0 ==>
                  && (k == 1 || ShownWhole(t, w, Prefix(preview, k, reminder), k < |preview|) == k)
                  && forall j :: k < j <= |preview| ==> ShownWhole(t, w, Prefix(preview, j, reminder), j < |preview|) != j)
  {
    hide Assembled, RenderEvents, ShownWhole, MaxContent, Accepts;
    var cap := MaxContent(t) - ReminderReserve(reminder);
    var k := PackEventsUnderCap(t, w, preview, cap);
    FitsIffSmall(t, w, preview, cap);
    FitCountMonotone(t, w, preview, cap - |w.deferred|, cap);
    forall j | 1 <= j <= |preview|
      ensures var claim, more := Prefix(preview, j, reminder), j < |preview|;
              && (Accepts(t, w, claim, more) <==>
                  j == 1 || |Assembled(t, w, preview[..j])| + (if more then |w.deferred| else 0) <= cap)
              && (ReminderReserve(reminder) == 0 ==>
                    (Accepts(t, w, claim, more) <==> j == 1 || ShownWhole(t, w, claim, more) == j))
    {
      PrefixAccepted(t, w, preview, j, reminder);
    }
    assert preview[..|preview|] == preview;
  }

  lemma PrefixAccepted(t: Transport, w: Wording, preview: seq<Event>, j: nat, reminder: Option<Text>)
    requires 1 <= j <= |preview|
    ensures var claim, more := Prefix(preview, j, reminder), j < |preview|;
            && (Accepts(t, w, claim, more) <==>
                j == 1 || |Assembled(t, w, preview[..j])| + (if more then |w.deferred| else 0)
                          <= MaxContent(t) - ReminderReserve(reminder))
            && (ReminderReserve(reminder) == 0 ==>
                  (Accepts(t, w, claim, more) <==> j == 1 || ShownWhole(t, w, claim, more) == j))
  {
    hide Assembled, ShownWhole, MaxContent, ResolveClaimFit;
    var claim, more := Prefix(preview, j, reminder), j < |preview|;
    FitMeans(t, w, claim.events, more, MaxContent(t) - ReminderReserve(reminder), w.deferred);
    if !HasReminder(claim) { AcceptedIsShownWhole(t, w, claim, more); }
  }

  // ----- the reminder gap is real -----

  function Letters(n: nat): Text { seq(n, _ => 0x61) }

  /** An event of one title letter whose body has `n`. */
  function Plain(id: Text, n: nat): Event {
    Event(id, Letters(1), Letters(4), Letters(1), Letters(n), Letters(1), None, None)
  }

  lemma PlainBlock(t: Transport, id: Text, n: nat)
    ensures |EventBlock(t, Plain(id, n))| == 16 + n
  {
    LettersClean(t, n);
    LettersClean(t, 1);
    LettersClean(t, 4);
    assert DetailLines(t, Plain(id, n)) == [];
  }

  lemma LettersClean(t: Transport, n: nat)
    ensures Sanitize(t, Letters(n)) == Letters(n)
  {
    assert Clean(t, Letters(n));
  }

  lemma PlainPair(t: Transport, w: Wording, one: Text, two: Text, a: nat, b: nat)
    ensures |Assembled(t, w, [Plain(one, a), Plain(two, b)])| ==
            |Header(t, w, [Plain(one, 0), Plain(two, 0)])| + 32 + a + b + |Joiner(t)|
  {
    hide EventBlock, Joiner;
    var pair := [Plain(one, a), Plain(two, b)];
    PlainBlock(t, one, a);
    PlainBlock(t, two, b);
    assert Ids(pair) == Ids([Plain(one, 0), Plain(two, 0)]);
    var blocks := Blocks(t, pair);
    JoinSnoc(Joiner(t), blocks, 0);
    JoinSnoc(Joiner(t), blocks, 1);
    assert blocks[..2] == blocks;
  }

  /** Room for two short events and the reminder, in this wording. */
  predicate RoomForTwo(t: Transport, w: Wording, one: Text, two: Text, reminder: Text) {
    |Header(t, w, [Plain(one, 0), Plain(two, 0)])| + 34 + |Joiner(t)| + |reminder| <= MaxContent(t)
  }

  /** The body that fills what the loops count on leaving free. */
  function FillingBody(t: Transport, w: Wording, one: Text, two: Text, reminder: Text): nat
    requires RoomForTwo(t, w, one, two, reminder)
  {
    MaxContent(t) - |Header(t, w, [Plain(one, 0), Plain(two, 0)])| - 34 - |reminder| - |Joiner(t)|
  }

  /** For every wording with an action step, every reminder and every two ids
      there is a claim of two events that the loops accept and the renderer cuts. */
  lemma ReminderOverflows(t: Transport, w: Wording, one: Text, two: Text, reminder: Text)
    requires w.step != [] && reminder != [] && Clean(t, reminder) && RoomForTwo(t, w, one, two, reminder)
    ensures var n := FillingBody(t, w, one, two, reminder);
            var claim := Claim(TurnInterruptible, [Plain(one, n), Plain(two, 0)], [], Some(reminder));
            Accepts(t, w, claim, false) && ShownWhole(t, w, claim, false) < 2
  {
    hide Header, Joiner, MaxContent, Clean, Accepts, ShownWhole;
    var n := FillingBody(t, w, one, two, reminder);
    var claim := Claim(TurnInterruptible, [Plain(one, n), Plain(two, 0)], [], Some(reminder));
    PlainPair(t, w, one, two, n, 0);
    FooterLength(t, w, claim);
    AcceptedButCutIff(t, w, claim, false);
  }

  // ----- content safety -----

  ghost predicate CleanWording(t: Transport, w: Wording) {
    && Clean(t, w.lead) && Clean(t, w.idsFlag) && Clean(t, w.leadEnd) && Clean(t, w.attribution)
    && Clean(t, w.step) && Clean(t, w.deferred) && Clean(t, w.truncated) && Clean(t, w.recap)
  }

  lemma AssembledClean(t: Transport, w: Wording, events: seq<Event>)
    requires CleanWording(t, w)
    ensures Clean(t, Assembled(t, w, events))
  {
    hide Clean, EventBlock, Sanitize, Join;
    var blocks := Blocks(t, events);
    forall b | b in blocks ensures Clean(t, b) {
      var i :| 0 <= i < |events| && b == EventBlock(t, events[i]);
      BlockClean(t, events[i]);
    }
    AsciiClean(t);
    JoinClean(t, Joiner(t), blocks);
    if t.Hook? {
      var ids := if events == [] then [] else w.idsFlag + Sanitize(Hook, Join([COMMA], Ids(events)));
      if events != [] { CleanAppend(t, w.idsFlag, Sanitize(Hook, Join([COMMA], Ids(events)))); }
      CleanAppend(t, w.lead, ids);
      CleanAppend(t, w.lead + ids, w.leadEnd);
    }
    CleanAppend(t, Header(t, w, events), Join(Joiner(t), blocks));
  }

  /** Whatever the events carry, nothing disallowed reaches the recipient. */
  lemma RenderClean(t: Transport, w: Wording, claim: Claim, moreDeferred: bool)
    requires CleanWording(t, w) && Render(t, w, claim, moreDeferred).Some?
    ensures Clean(t, Render(t, w, claim, moreDeferred).value)
  {
    hide Clean, Sanitize, Assembled, Blank, MaxContent;
    if claim.events == [] {
      ReminderClean(t, w, claim);
    } else {
      hide ShownWhole, Footer, DeferredMarker, SoleMarker, RenderEvents;
      var shown := ShownWhole(t, w, claim, moreDeferred);
      PartsClean(t, w, claim, moreDeferred);
      var footer := Footer(t, w, claim);
      if shown > 0 {
        RenderShowsPrefix(t, w, claim, moreDeferred);
        var marker := if shown == |claim.events| && !moreDeferred then [] else DeferredMarker(t, w, claim);
        var text := Assembled(t, w, claim.events[..shown]);
        AssembledClean(t, w, claim.events[..shown]);
        CleanAppend(t, text, marker);
        CleanAppend(t, text + marker, footer);
      } else {
        RenderCutsFirst(t, w, claim, moreDeferred);
        var first, sole := Assembled(t, w, claim.events[..1]), SoleMarker(t, w, claim, moreDeferred);
        var cut := CutPoint(first, MaxContent(t) - |footer| - |sole|);
        AssembledClean(t, w, claim.events[..1]);
        assert first == first[..cut] + first[cut..];
        CleanAppend(t, first[..cut], first[cut..]);
        CleanAppend(t, first[..cut], sole);
        CleanAppend(t, first[..cut] + sole, footer);
      }
    }
  }

  lemma PartsClean(t: Transport, w: Wording, claim: Claim, moreDeferred: bool)
    requires CleanWording(t, w)
    ensures Clean(t, Footer(t, w, claim)) && Clean(t, DeferredMarker(t, w, claim)) && Clean(t, [])
    ensures Clean(t, SoleMarker(t, w, claim, moreDeferred)) && Clean(t, TruncatedMarker(t, w, claim))
  {
    hide Clean, Sanitize;
    AsciiClean(t);
    if HasReminder(claim) {
      var reminder := Sanitize(t, claim.reminder.value);
      CleanAppend(t, [NL, NL], reminder);
      CleanAppend(t, [NL, NL] + reminder, w.step);
    }
    CleanAppend(t, TruncatedMarker(t, w, claim), DeferredMarker(t, w, claim));
  }

  lemma ReminderClean(t: Transport, w: Wording, claim: Claim)
    requires CleanWording(t, w)
    ensures Clean(t, TruncateWithMarker(ReminderLine(t, w, claim), MaxContent(t), TruncatedMarker(t, w, claim)))
  {
    hide Clean, Sanitize, CutPoint, MaxContent;
    var head := if t.Hook? then w.attribution else [];
    var line, marker := ReminderLine(t, w, claim), TruncatedMarker(t, w, claim);
    PartsClean(t, w, claim, false);
    CleanAppend(t, head, Sanitize(t, claim.message));
    CleanAppend(t, head + Sanitize(t, claim.message), w.step);
    var cut := CutPoint(line, Max(0, MaxContent(t) - |marker|));
    assert line == line[..cut] + line[cut..];
    CleanAppend(t, line[..cut], line[cut..]);
    CleanAppend(t, line[..cut], marker);
  }
}
