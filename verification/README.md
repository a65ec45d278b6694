# AgentMon delivery core, verified in Dafny

AgentMon watches sources, records events and injects them into agent sessions.
This project models the parts of it where a mistake loses or duplicates a
delivery, and proves them: the reserve, surface, commit protocol between the
daemon and its two injecting transports; the renderers that fit events under a
cap; the admission of daemon requests; the verdict of `verify`; the worker pool
and composite snapshot of the HTTP poller; the command poller; idle reaping; and
the transport-health verdict.

`dafny verify dfyconfig.toml` checks everything. Only Dafny 4.11 is needed.

## Shape

| files | what they hold |
|---|---|
| `Utf16`, `Utf8`, `Strings`, `Ordering`, `Json`, `Options` | JavaScript strings, UTF-8, split and join, sorts, JSON values |
| `DeliveryBlocks`, `DeliveryRender`, `DeliveryReading` | event blocks, packing under a cap, both renderers, what a recipient reads |
| `DeliveryDaemon`, `DeliveryRules`, `ReservationRegistry` | rows, the claim decision, leases |
| `DeliverySystem` | any number of clients and the daemon, interleaved |
| `DeliveryLink`, `DeliveryLoops`, `StreamWrite` | one client among them: its calls, the sized-reserve loop, the cycles, the awaited write |
| `DeliveryRetry` | failed surfaces come back; undisturbed cycles surface every settled event once |
| `DeliveryOverflow` | an undisturbed delivery that claims an event it does not show |
| `ShellPath` | the quoted socket path in recovery commands |
| `DaemonConnection`, `InputLimits` | framing and the budget walk |
| `VerifyObserve` | the sliding-window verdict |
| `WorkerPool`, `Composite` | the pool's schedules, the composite budget |
| `JsonText`, `JsonCanonical`, `JsonPaths`, `JsonFields` | printing, canonical comparison, ignore-paths |
| `CommandPoll`, `CommandRun` | health and baseline machine, child supervision |
| `Heartbeats`, `Reaping`, `TransportHealth` | leases, the reap loop, the verdict |

Code that changes state is modelled as classes and loops proved against a
specification function, code made of expressions as functions. Protocols are
step systems; what holds over every run is proved by an invariant each step
keeps. A client method runs inside that system: before and during each of its
calls an arbitrary environment takes any foreign steps and may fail the call
before or after it reached the daemon.

## Where the code departs from its own comments

- `reminderFooterLength` is described as a conservative bound on the footer. It
  leaves out the action step both renderers append, so the loops accept claims
  that are then cut (`DeliveryRender.ReminderOverflows`);
  `DeliveryRender.AcceptedButCutIff` says exactly which. Undisturbed, such a
  claim is reported delivered and its hidden event is claimed
  (`DeliveryOverflow.DeliversUnshown`).
- `appendMarkerWithinCap` and `truncateWithMarker` are described as always
  within the cap. They are exactly when the marker itself fits, or, for the
  latter, no cut was needed; `DeliveryRender.RenderWithinCap` carries this to
  whole renderings.
- A reservation is described as leasing its rows. A post-compact recap takes
  every unread row, leased or claimed, so leases may overlap
  (`DeliveryDaemon.RecapLeasesTwice`); `DeliveryDaemon.OpKeepsInvIff` says
  exactly when they do not. The claim-only-after-surface results hold for recaps
  as well.
- The socket path is described as reconstructing exactly. It does for well-formed
  paths without NUL and for no others (`ShellPath.RecoverIffPlainPath`).
- Composite parts may share an id. The declared order of parts can show in the
  snapshot (`Composite.SharedIdsKeepDeclaredOrder`), but only if parts sharing an
  id differ (`Composite.RenderForgetsOrder`, `Ordering.SortForgetsOrderIff`).
- Ignore-paths are accepted as any strings
  (plugins/source-command-poll/src/index.ts:518-531) and an invalid segment
  throws only once a comparison reaches it. So the order of the configured paths
  can decide between a verdict and an error (`JsonPaths.InvalidPathsMindOrder`),
  and a run that throws stores and emits nothing. `JsonPaths.NeverThrowsIff` says
  which paths are safe; `CommandPoll.ValidPathsKeepAll` carries it to histories.
- A transport row's `running` follows one representative record. Among records
  that tie it depends on the order of the registry
  (`TransportHealth.RunningMindsOrder`); `TransportHealth.RunningForgetsOrderIff`
  says when it does not. Verdict and reach never depend on it
  (`TransportHealth.VerdictForgetsRegistryOrder`).

## Model

| member | source | states |
|---|---|---|
| `DeliverySystem.NewClaimNeedsSurface` | apps/cli/src/commands/channel.ts:451-484 | in any reachable state the one step that newly claims a row is a direct claim, or an applied commit, before its lease ran out, of a reservation already surfaced, never failed, whose plan holds that row and whose rendering is not empty; the cause recorded is that step and stays |
| `DeliverySystem.EnvironmentIsFree` | apps/cli/src/commands/channel.ts:451-484 | a client may crash wherever it stands, and every operation but those on reservations may come at any time |
| `DeliverySystem.EveryInterleaving` | apps/cli/src/commands/hook.ts:503-578 | after any interleaving of clients, lost calls, crashes, restarts and clock changes every claimed row has such a cause, and every stored lease is as issued and has a live holder or is an orphan of a failed call |
| `DeliverySystem.TrichotomyAcrossClients` | libs/core/src/runtime/service.ts:2007-2034 | unless a recap took leased rows every unacknowledged row is, after any interleaving, exactly one of claimed, leased to one live reservation, or available |
| `DeliverySystem.StepKeepsInv` | apps/cli/src/commands/channel.ts:451-484 | every client or daemon step keeps the protocol invariant: phases, fates, plans, stored leases and causes of claims stay consistent |
| `DeliverySystem.DecisionRenders` | libs/core/src/runtime/service.ts:2048-2276 | every claim the daemon decides carries events or a non-blank message, so no renderer returns nothing for it |
| `DeliveryDaemon.StepInv` | libs/core/src/runtime/service.ts:1949-1998 | every operation but a recap, at any clock, keeps the lease discipline: stored reservations hold unclaimed rows and share none |
| `DeliveryDaemon.TrichotomyInEveryRun` | libs/core/src/runtime/service.ts:2007-2034 | in every run of the daemon alone whose recaps are orderly an unacknowledged row is exactly one of claimed, leased once, available |
| `DeliveryDaemon.OpKeepsInvIff` | libs/core/src/runtime/service.ts:1922-1998 | every operation keeps the lease discipline exactly when it is orderly: any but a recap, and a recap, claimed directly or reserved, exactly when none of its unread rows is leased nor, if reserved, already claimed |
| `DeliveryDaemon.RunInvIff` | libs/core/src/runtime/service.ts:1922-2034 | the discipline holds all along a run exactly when every recap of the run is orderly where it comes |
| `DeliveryRules.CommitMeans` | libs/core/src/runtime/service.ts:1979-1984 | a commit claims exactly the rows of a reservation whose expiry lies ahead and nothing in every other case; either way that reservation is gone and the others stay |
| `DeliveryRules.InterruptMeans` | libs/core/src/runtime/service.ts:2064-2205 | before a turn the decision is, in row order, the first settled free events up to the cap, at least one, with the reminder and its rows when normal work waits and none is in flight; without settled events that reminder alone unless fresh high-urgency work waits; else none |
| `DeliveryRules.IdleMeans` | libs/core/src/runtime/service.ts:2207-2226 | at a turn end the decision is all free low-urgency rows behind one reminder, exactly when some are free and none is in flight |
| `DeliveryRules.RecapMeans` | libs/core/src/runtime/service.ts:2228-2273 | after a compaction the decision is every unread row, leased or claimed, showing the last ten |
| `DeliveryRules.PreviewMeans` | libs/core/src/runtime/service.ts:2317-2385 | the previews are every free settled event in row order and, with any, the reminder when it is due |
| `DeliveryRules.AvailableMeans` | libs/core/src/runtime/service.ts:2007-2034 | a row is free for the next decision exactly when it is unread, unclaimed and in no reservation whose expiry lies ahead |
| `DeliveryRules.SettledMeansFree` | libs/core/src/runtime/service.ts:2066-2070 | a free high-urgency row has settled exactly fifteen seconds after it was recorded |
| `DeliveryRules.ClaimMeans` | libs/core/src/runtime/service.ts:1922-1932 | a direct claim marks exactly the rows decided and acknowledges none |
| `DeliveryRules.ReserveMeans` | libs/core/src/runtime/service.ts:1949-1970 | a reservation claims nothing; its rows are withheld until thirty seconds later by the clock and free from then on |
| `DeliveryRules.AckedIsNeverTaken` | libs/core/src/runtime/service.ts:2048-2276 | no decision takes an acknowledged row, a row of another session or one never recorded |
| `DeliveryRules.OthersMean` | libs/core/src/runtime/service.ts:1949-1998 | recording, acknowledging, the clock, previews and releases change one column each, and a release no other lease |
| `DeliveryRules.RestartMeans` | libs/core/src/runtime/delivery-reservations.ts:60-70 | a restart forgets every lease and nothing else |
| `DeliveryDaemon.RecapLeasesTwice` | libs/core/src/runtime/service.ts:2228-2273 | a concrete recap over a leased row, after which two live reservations hold that row |
| `DeliveryDaemon.ClaimedIsSurfaced` | libs/core/src/runtime/service.ts:2110-2226 | outside recaps the claimed set is the surfaced set: every candidate row is shown or spoken for by the reminder, everything shown is a candidate, and high-urgency rows are claimed only once settled |
| `DeliveryDaemon.WithheldIff` | libs/core/src/runtime/service.ts:2064-2205 | a turn-interruptible claim is withheld exactly when nothing settled is free and there is no reminder to give: none pending, one in flight, or fresh high-urgency work it must not preempt |
| `DeliveryDaemon.RecapShowsAllIff` | libs/core/src/runtime/service.ts:2229-2273 | a recap claims every unread row and shows the newest ten, so it shows all it claims exactly when there are at most ten |
| `DeliveryDaemon.ReserveCommitIsClaim` | libs/core/src/runtime/service.ts:1922-1984 | reserving and committing in time leaves the same daemon state as claiming directly |
| `DeliveryDaemon.ReserveReleaseIsNothing` | libs/core/src/runtime/service.ts:1949-1998 | reserving and releasing leaves nothing behind but the pruning of expired leases |
| `DeliveryDaemon.PruneHidesNothing` | libs/core/src/runtime/delivery-reservations.ts:115-126 | dropping expired reservations changes no claim decision and no preview |
| `DeliveryDaemon.ClaimMatchesPreview` | libs/core/src/runtime/service.ts:2317-2381 | a turn-interruptible claim shows a prefix of the preview of the length asked for, at least one and at most the cap, with the previewed reminder |
| `ReservationRegistry.Registry.Add` | libs/core/src/runtime/delivery-reservations.ts:76-83 | a fresh id is recorded with its plan and expiry; nothing else changes |
| `ReservationRegistry.Registry.Take` | libs/core/src/runtime/delivery-reservations.ts:90-96 | the reservation is removed either way and returned only if it was known and unexpired |
| `ReservationRegistry.Registry.Remove` | libs/core/src/runtime/delivery-reservations.ts:103-107 | the reservation is removed and returned, expired or not |
| `ReservationRegistry.Registry.ReservedKeys` | libs/core/src/runtime/delivery-reservations.ts:114-126 | exactly the expired reservations are dropped, and the answer is exactly the keys of one session held by the rest |
| `ReservationRegistry.ReportedIsLeased` | libs/core/src/runtime/delivery-reservations.ts:114-126 | what the registry reports after its sweep is what the claim decision treats as leased |
| `DeliveryLink.InterfereKeeps` | apps/cli/src/runtime-client.ts:155-214 | no foreign actions can change a client's phase, its orphaned leases, its plans or the fate of its renderings, or undo a claim |
| `DeliveryLink.InterfereIsFree` | apps/cli/src/runtime-client.ts:155-214 | whatever interleaving the environment and other clients are capable of can be what happens before a call |
| `DeliveryLink.Link.Reserve` | apps/cli/src/runtime-client.ts:177-191 | a granted claim is something to surface and obeys `maxEvents`, an unanswered call leaves the client idle, and undisturbed the answer is the daemon's decision |
| `DeliveryLink.Link.Release` | apps/cli/src/runtime-client.ts:214-223 | the lease goes in every case the call reached the daemon, the client ends idle, and an answered release leaves no lease behind |
| `DeliveryLink.Link.Commit` | apps/cli/src/runtime-client.ts:200-209 | a non-null answer comes exactly for a reservation stored and in time when the call met the daemon, and means the whole candidate set is claimed; null or a failed call promises nothing |
| `DeliveryLoops.ReserveSized` | apps/cli/src/commands/hook.ts:262-428 | the loop both transports run: against any interference it never falls off its end, returns only claims that pass the fit test and, when it says nothing more is deferred, leave no settled event out; it gives up only on a failed call and finds nothing only when nothing is decided; it leaves no lease but the one returned unless its own reserve or release failed, and undisturbed accepts its first attempt with the largest prefix, leaving the daemon as that one reserve would |
| `DeliveryLoops.Attempt` | apps/cli/src/commands/channel.ts:260-422 | one pass ends the loop or, only before the last attempt, asks again with a cap strictly below the one before |
| `DeliveryLoops.Judge` | apps/cli/src/commands/channel.ts:331-415 | the granted claim is kept only if it fits under the final `moreDeferred`, which is true of the daemon at that moment unless sizing had set it; otherwise it is released and the cap is what was measured; giving up means a call failed |
| `DeliveryLoops.Size` | apps/cli/src/commands/hook.ts:267-304 | sizing leaves holdings alone and never asks for more than a forced cap, or for more than one event on the last attempt |
| `DeliveryLoops.RequestMeans` | apps/cli/src/commands/hook.ts:267-304 | an attempt asks for the longest accepted prefix no longer than a forced cap, at least one event, a last attempt for one, and says more is deferred exactly when it leaves some of the preview out |
| `DeliveryLoops.MismatchTightens` | apps/cli/src/commands/hook.ts:371-423 | a claim that obeyed its request but does not fit yields a cap of at least one, below the claim, the request and any cap forced before; the last attempt never mismatches |
| `DeliveryLoops.PackedFits` | apps/cli/src/commands/hook.ts:285-296 | what the preview was sized to passes the fit test on the claim it produces |
| `DeliveryLoops.NothingRemains` | apps/cli/src/commands/hook.ts:204-215 | once the whole preview is leased, the re-preview finds no settled event beyond the claim |
| `DeliveryLoops.CalmGrant` | apps/cli/src/commands/hook.ts:262-428 | undisturbed, the first grant is the sized prefix with the previewed reminder and passes both checks |
| `DeliveryLoops.OnlyTheHeldLease` | apps/cli/src/commands/hook.ts:262-428 | when a client's holdings are unchanged, the only stored lease it gained is the one it holds |
| `DeliveryLoops.SurfaceAndCommit` | apps/cli/src/commands/hook.ts:565-578 | the commit is issued only after the rendering was surfaced; a surface fails exactly when its call does, is then released, and no row is ever claimed on its account; a delivered outcome means every candidate is claimed, and undisturbed it is delivered exactly while the lease lasts |
| `DeliveryLoops.DeliverOnce` | apps/cli/src/commands/channel.ts:451-484 | one cycle surfaces exactly the rendering of the reserved claim, shown whole when it has several events and no reminder; it reports delivered only once the whole plan is claimed; without a reminder the plan holds only rows of the events shown; undisturbed it delivers the daemon's decision and leaves the daemon exactly as claiming it directly would |
| `DeliveryLoops.FailedNeverClaims` | apps/cli/src/commands/channel.ts:459-469 | a reservation whose push or write failed is never the cause of a claim |
| `DeliveryRetry.FailedIsOpen` | apps/cli/src/commands/channel.ts:459-469 | once a reservation that failed to surface holds a row no more, the row is claimed on another account, leased to one other reservation, or available |
| `DeliveryRetry.ReleasedIsAvailable` | libs/core/src/runtime/service.ts:1991-1998 | releasing a lease makes every unacknowledged row of it available at once |
| `DeliveryRetry.ExpiredIsAvailable` | libs/core/src/runtime/delivery-reservations.ts:114-126 | a lease that ran out makes every unacknowledged row of it available, with no release |
| `DeliveryRetry.FailedIsRetried` | apps/cli/src/commands/channel.ts:425-469 | a settled event whose surface failed is, once its lease is released, surfaced and claimed by as many undisturbed cycles as events are settled |
| `DeliveryRetry.CyclesDrain` | apps/cli/src/commands/channel.ts:451-484 | over any number of undisturbed cycles the events surfaced followed by those still settled are the events settled at the start, each once and in order; each cycle makes progress and what it surfaced is claimed |
| `DeliveryRetry.Poll` | apps/cli/src/commands/channel.ts:657-713 | the polling loop: undisturbed, as many polls as there are settled events report delivered exactly those events, each once and in order, and leave none settled and all claimed |
| `StreamWrite.FirstSignalSettles` | apps/cli/src/commands/hook.ts:620-674 | for any signals a stream can give for one write, the first settles the promise for good, it resolves only on a successful callback, no error event goes uncaught, and the listener stays until it fired or the write succeeded first or threw |
| `StreamWrite.BothReport` | apps/cli/src/commands/hook.ts:620-674 | a failed write reported by callback and by event, in either order, rejects once and leaves nothing uncaught |
| `StreamWrite.Pending.OnCallback` | apps/cli/src/commands/hook.ts:645-661 | a failing callback rejects once and leaves the listener armed; a successful one resolves and detaches |
| `StreamWrite.Pending.OnErrorEvent` | apps/cli/src/commands/hook.ts:631-643 | the listener is still armed for an error event, rejects an unsettled promise and swallows the paired event of a settled one |
| `DeliveryRender.PackWholeBlocks` | apps/cli/src/delivery-event-render.ts:287-303 | the included blocks are the largest prefix that fits under the header, and the text is exactly header and those blocks |
| `DeliveryRender.ResolveHookHeaderPacking` | apps/cli/src/hook-deliver-render.ts:432-454 | the descent finds the largest k whose header naming the first k ids and first k blocks fit; whoever splits what the header names gets back exactly the ids of those events, and none when k is 0 |
| `DeliveryRender.PackChannelBlocks` | apps/cli/src/channel-render.ts:259-271 | without a header the greedy packing is already that largest prefix |
| `DeliveryRender.FitCount` | apps/cli/src/hook-deliver-render.ts:432-454 | the count returned fits and no longer prefix does |
| `DeliveryRender.FitsDownward` | apps/cli/src/hook-deliver-render.ts:343-373 | each further event makes the assembly longer by at least one unit, header included, so feasibility is downward closed |
| `DeliveryRender.HeaderNames` | apps/cli/src/hook-deliver-render.ts:343-351 | the header of any events is the lead, the ids flag, a text that splits into exactly their ids, and the lead end; without events lead and lead end alone |
| `DeliveryRender.BothFactsSignposted` | apps/cli/src/hook-deliver-render.ts:828-883 | a rendering that leaves events out or has more deferred ends, footer aside, with the deferred marker; one that cut a block ends with the truncation marker, and with both when more was deferred unless they say the same |
| `DeliveryRender.FitMeans` | apps/cli/src/hook-deliver-render.ts:568-601 | a claim passes the fit test exactly when it is a single event or its assembly and any marker fit the cap; otherwise what was measured is the most events that fit with the marker, at least one |
| `DeliveryRender.AcceptedIsShownWhole` | apps/cli/src/hook-deliver-render.ts:812-883 | without a coalesced reminder a claim is accepted exactly when it is a single event or every block is rendered whole |
| `DeliveryRender.AcceptedButCutIff` | apps/cli/src/commands/hook.ts:161-163 | with a reminder, a claim of several events is accepted and then cut exactly when its room lies between what is reserved and what the footer takes |
| `DeliveryRender.ReminderOverflows` | apps/cli/src/commands/channel.ts:172-174 | for every wording with an action step, every reminder and every two ids there is a two-event claim the loop accepts and the renderer cuts |
| `DeliveryOverflow.DeliversUnshown` | apps/cli/src/commands/channel.ts:451-484 | on a link to the world that recording three events and letting two settle reaches, an undisturbed delivery surfaces the claim the daemon decides there, leaves the daemon as claiming it directly would, reports delivered and claims the second event without showing its block |
| `DeliveryOverflow.SettledDecision` | libs/core/src/runtime/service.ts:2064-2205 | in that world the daemon decides both settled events, claims the normal one with them and attaches its reminder, for every cap of two or more |
| `DeliveryRender.FooterLength` | apps/cli/src/hook-deliver-render.ts:801-806 | the footer is what the loops reserve plus the action step, less the controls stripped from the reminder |
| `DeliveryRender.FirstAttemptIsLargest` | apps/cli/src/hook-deliver-render.ts:479-504 | with or without a reminder the sized count is the largest prefix of the preview the loop accepts, at least one; without a reminder that is the largest prefix rendered whole, or one event |
| `DeliveryRender.WholeIffRoom` | apps/cli/src/channel-render.ts:396-460 | every block is whole exactly when assembly, applicable marker and footer fit the ceiling |
| `DeliveryRender.RenderShowsPrefix` | apps/cli/src/hook-deliver-render.ts:828-843 | when some block is whole the text is the header naming exactly the shown events, their blocks, the deferred marker unless all is shown and nothing deferred, and the footer |
| `DeliveryRender.RenderCutsFirst` | apps/cli/src/hook-deliver-render.ts:843-883 | otherwise the first block is cut at the last code-point boundary its markers and the footer leave room for |
| `DeliveryRender.RenderWithinCap` | apps/cli/src/hook-deliver-render.ts:755-883 | the rendering is within 4000 or 20000 units exactly when nothing was cut or marker and footer alone fit |
| `DeliveryRender.RenderClean` | apps/cli/src/channel-render.ts:15-28 | nothing an event carries puts a disallowed character into the rendering |
| `DeliveryReading.TextReads` | apps/cli/src/hook-deliver-render.ts:823-843 | when some block is whole the text is a header naming exactly the shown events, their blocks in order, the deferred marker unless all is shown and nothing deferred, and the reminder with its action step |
| `DeliveryReading.CutTextReads` | apps/cli/src/hook-deliver-render.ts:843-883 | otherwise it is the header and block of the first event cut at the last code-point boundary within 4000 or 20000 units, its marker, the deferred marker if that says something else, and the reminder |
| `DeliveryReading.ShownReads` | apps/cli/src/channel-render.ts:396-460 | all blocks are whole exactly when everything fits the ceiling, otherwise the most that fit with the deferred marker and the reminder |
| `DeliveryReading.MessageReads` | apps/cli/src/hook-deliver-render.ts:755-773 | a claim without events reads as its message, attributed on the hook, and the action step, cut only over the ceiling; on the hook a blank message gives nothing |
| `DeliveryReading.BlockMeans` | apps/cli/src/delivery-event-render.ts:208-260 | whatever its fields hold, a block is the headline, title and extra lines of the event as it shows, an empty line and the body, and below them the changes if the diff is not blank |
| `DeliveryReading.BlockReads` | apps/cli/src/delivery-event-render.ts:208-260 | split into lines, a block of single-line fields is monitor and urgency, title, detail and digest where they add something, an empty line, and the body |
| `DeliveryReading.DiffReads` | apps/cli/src/delivery-event-render.ts:253-260 | a diff of at most 800 units follows whole under its heading |
| `DeliveryReading.LongDiffReads` | apps/cli/src/delivery-event-render.ts:253-260 | a longer diff is cut at the last code-point boundary that leaves room within 800 units for the marker, before it is sanitized |
| `DeliveryReading.SanitizeMeans` | apps/cli/src/hook-deliver-render.ts:243-256 | unit by unit, allowed ones stay; raw controls but tab and line feed are dropped by the hook, and angle and square brackets and carriage returns become spaces on the channel |
| `DeliveryBlocks.SanitizeHook` | apps/cli/src/hook-deliver-render.ts:243-256 | the loop over code points drops exactly the raw controls |
| `DeliveryBlocks.Sanitize` | apps/cli/src/channel-render.ts:26-28 | the result holds no disallowed unit, is never longer, and is the input when that was clean |
| `DeliveryBlocks.SanitizeAppend` | apps/cli/src/hook-deliver-render.ts:343-351 | sanitizing joined ids is joining sanitized pieces, which makes header length grow with the ids |
| `DeliveryBlocks.BlockClean` | apps/cli/src/delivery-event-render.ts:208-260 | a block holds no disallowed unit whatever its event fields hold |
| `DeliveryBlocks.TransportsAgree` | apps/cli/src/delivery-event-render.ts:201-206 | an event neither transport has to sanitize renders to the same block on both |
| `DeliveryBlocks.DetailSaysTheRest` | apps/cli/src/delivery-event-render.ts:231-253 | the detail lines repeat neither title, body nor each other, and object detail and digest are said somewhere unless empty |
| `DeliveryBlocks.ChangeSummary` | apps/cli/src/delivery-event-render.ts:138-140 | the change summary is within 800 units after sanitizing |
| `Utf16.TruncateAtCodePointBoundary` | apps/cli/src/truncate-at-code-point-boundary.ts:14-24 | the result is the longest prefix within budget that splits no surrogate pair |
| `Utf16.TruncationKeepsWellFormed` | apps/cli/src/truncate-at-code-point-boundary.ts:3-13 | a truncated well-formed text is well formed |
| `Utf16.TruncateWithMarker` | apps/cli/src/delivery-event-render.ts:122-130 | the result is within the cap exactly when the value or the marker is |
| `Utf16.AppendMarkerWithinCap` | apps/cli/src/delivery-event-render.ts:155-163 | the result ends with the marker, keeps an unsplit prefix of the body, and is within the cap exactly when the marker is |
| `ShellPath.EscapeShellPath` | apps/cli/src/delivery-event-render.ts:86-107 | the two passes produce the token the reader is proved against |
| `ShellPath.EscapeRoundTrip` | apps/cli/src/delivery-event-render.ts:71-85 | the shell reads the token back to exactly the path's UTF-8 bytes |
| `ShellPath.EscapeIsTagSafe` | apps/cli/src/delivery-event-render.ts:71-76 | the token holds only letters, digits, slash, dot, underscore, hyphen, dollar, quote and backslash |
| `ShellPath.EscapeShows` | apps/cli/src/delivery-event-render.ts:86-107 | a path of conservative characters stands as it is between quotes; any other takes the dollar form, with those characters as they are and the other code points in hexadecimal |
| `ShellPath.RecoverIffPlainPath` | apps/cli/src/delivery-event-render.ts:48-52 | the command gets the exact path back if and only if the path is well formed and free of NUL |
| `DaemonConnection.DecideMeans` | apps/cli/src/daemon-ipc.ts:997-1028 | a stream dispatches exactly the bytes before its first newline when they are within 1 MiB, and is rejected exactly when its first 1 MiB and one byte hold no newline |
| `DaemonConnection.DecisionIsFinal` | apps/cli/src/daemon-ipc.ts:981-1000 | a decision once taken is the decision of every longer stream |
| `DaemonConnection.DecideStep` | apps/cli/src/daemon-ipc.ts:1001-1013 | how one more chunk moves a stream that is still waiting |
| `DaemonConnection.Connection.OnData` | apps/cli/src/daemon-ipc.ts:997-1028 | after any chunk the decision is that of all bytes received, the buffer holds the received prefix within the limit, and a decided connection changes nothing |
| `DaemonConnection.Connection.Grow` | apps/cli/src/daemon-ipc.ts:1011-1022 | growth keeps the held bytes, covers the need within the limit and copies exactly the held length |
| `DaemonConnection.Receive` | apps/cli/src/daemon-ipc.ts:978-1028 | however a stream is cut, the decision is that of the concatenation, at most one line is admitted and growth copies less than twice the limit |
| `InputLimits.RequestInputLimitViolation` | apps/cli/src/input-limits.ts:25-66 | the loop names no violation exactly when the tree, by recursion over array elements and object fields, has depth at most 32, containers of at most 1000 entries and at most 10000 values; otherwise it names the budget a recursion, depth before width before count and the last child first, would find exceeded first |
| `InputLimits.StackWithinAdmitted` | apps/cli/src/input-limits.ts:25-66 | in every state of that walk the values admitted are those popped and those stacked, so the stack never exceeds them, nor they the tree and the budget, and the walk ends within as many pops |
| `VerifyObserve.ObserveWindow.ResolveObserveVerdict` | apps/cli/src/verify-observe.ts:62-101 | one poll updates the window and answers as the branch-by-branch specification |
| `VerifyObserve.PollIsTrueOfWholeLog` | apps/cli/src/verify-observe.ts:54-101 | a poll without a gap gives the verdict a reader of the whole history would give, across a gap a trigger exactly when its window shows one, and what it keeps still covers the history |
| `VerifyObserve.VerdictMeans` | apps/cli/src/verify-observe.ts:62-101 | a poll answers triggered exactly when its window shows a trigger past the baseline, by hand and across gaps included; by hand or across a gap it answers nothing else |
| `VerifyObserve.VerdictsAreTrue` | apps/cli/src/verify-observe.ts:40-101 | over any polls of newest suffixes of one growing history the verdicts are true of all of it, rows evicted from later windows included |
| `VerifyObserve.RunDecides` | apps/cli/src/verify-observe.ts:40-101 | over any polls: by hand, after a missed frontier or with a baseline taken backwards, a trigger if the window shows one and nothing otherwise; else exactly the verdict of a reader of the whole history |
| `VerifyObserve.GapIffFrontierMissed` | apps/cli/src/verify-observe.ts:76-81 | a gap is recorded exactly when a window moved past its frontier without showing it |
| `WorkerPool.EverySchedule` | plugins/source-api-poll/src/map-with-concurrency.ts:45-95 | in every schedule calls start once each and in order, no more than the limit and no more than the items are outstanding, a rejection carries a caught failure and a resolution holds the answer of call i in slot i |
| `WorkerPool.PoolIsFull` | plugins/source-api-poll/src/map-with-concurrency.ts:86-95 | and no fewer: with items left, nothing failed and every worker at its await, the outstanding calls are the smaller of limit and items |
| `WorkerPool.FirstFailureWins` | plugins/source-api-poll/src/map-with-concurrency.ts:70-83 | the first failure fixes the surfaced error and no call starts after it, whatever siblings do |
| `WorkerPool.SchedulesEnd` | plugins/source-api-poll/src/map-with-concurrency.ts:62-91 | every schedule is finite within a bound fixed by the input |
| `WorkerPool.NeverStuck` | plugins/source-api-poll/src/map-with-concurrency.ts:86-95 | an unsettled pool can step or awaits a call |
| `WorkerPool.AnyStepIsPossible` | plugins/source-api-poll/src/map-with-concurrency.ts:86-95 | a worker at its loop top may run, an awaited call may end either way, and the race is over as soon as a call has failed or every worker returned, without waiting for siblings |
| `WorkerPool.HistoryMeans` | plugins/source-api-poll/src/map-with-concurrency.ts:62-83 | a turn starts at most the next item, an answer stands under the item its worker awaited, and only the first failure is kept |
| `WorkerPool.StepInv` | plugins/source-api-poll/src/map-with-concurrency.ts:62-95 | every worker turn, answer, failure and settlement keeps the pool invariant |
| `WorkerPool.OpenBatch` | plugins/source-api-poll/src/map-with-concurrency.ts:39-43 | a limit that is not a positive integer is refused, any other starts a fresh pool |
| `WorkerPool.BatchRun.RunWorker` | plugins/source-api-poll/src/map-with-concurrency.ts:62-70 | a worker's synchronous stretch takes the next index unless aborted or exhausted |
| `WorkerPool.BatchRun.OnFailure` | plugins/source-api-poll/src/map-with-concurrency.ts:73-83 | a failing call aborts the batch, keeps the first error and retires its worker |
| `Composite.RenderedBytes` | plugins/source-api-poll/src/composite.ts:215-245 | the artifact's bytes are the running sum plus exactly its separators |
| `Composite.OnePartReads` | plugins/source-api-poll/src/composite.ts:215-217 | a snapshot of one part is its id under two hashes and its body below |
| `Composite.FirstPartReads` | plugins/source-api-poll/src/composite.ts:219-224 | a part whose id is not above the others' stands first, an empty line before the rest |
| `Composite.RenderForgetsOrder` | plugins/source-api-poll/src/composite.ts:219-224 | unless two parts share an id but not a body the snapshot does not depend on the order of parts |
| `Composite.SharedIdsKeepDeclaredOrder` | plugins/source-api-poll/src/composite.ts:219-224 | two parts sharing an id but not a body whose snapshot differs between their two orders |
| `Composite.StepInv` | plugins/source-api-poll/src/index.ts:844-900 | every arrival in any order keeps the byte count equal to the parts arrived, and over-budget aborts are true of the whole |
| `Composite.AnyOrderIsPossible` | plugins/source-api-poll/src/index.ts:844-900 | any part in flight may arrive next, and once the batch failed be cancelled instead |
| `Composite.ObservationIgnoresCompletionOrder` | plugins/source-api-poll/src/index.ts:811-930 | for every schedule in which all parts arrive the observation fails its budget exactly when the rendered snapshot exceeds 10 MiB, and is otherwise that snapshot |
| `Composite.CompositeRun.OnPart` | plugins/source-api-poll/src/index.ts:860-898 | a part's arrival adds its framed bytes and fails the call when the sum passes the budget |
| `Ordering.SortForgetsOrderIff` | plugins/source-api-poll/src/composite.ts:220-222 | every order of the same parts sorts alike exactly when parts sharing an id are equal |
| `Ordering.SortSorts` | plugins/source-api-poll/src/composite.ts:220-222 | the sort is ascending and a permutation |
| `Ordering.LessMeans` | plugins/source-api-poll/src/composite.ts:220-222 | the order of ids is that of the first unit that differs, a prefix coming first |
| `Utf8.DecodeRoundTrip` | apps/cli/src/delivery-event-render.ts:102-104 | decoding the UTF-8 of a text gives it back with lone surrogates replaced |
| `Utf8.RepairMeans` | apps/cli/src/delivery-event-render.ts:102-104 | unit by unit, exactly the surrogates without a partner become U+FFFD |
| `Utf8.ByteLengthAppend` | plugins/source-api-poll/src/composite.ts:243-245 | byte lengths add over concatenations that join no surrogate pair |
| `JsonText.PrintUnique` | plugins/source-command-poll/src/index.ts:609-615 | printed values are uniquely readable: equal texts come from equal values |
| `JsonText.EscapeUnique` | plugins/source-command-poll/src/index.ts:609-615 | two strings with the same quoted text are equal, lone surrogates included |
| `JsonCanonical.SortKeysInOrder` | plugins/source-command-poll/src/index.ts:506-516 | the recursion over sorted keys produces the canonical value |
| `JsonCanonical.SortKeysEqualIff` | plugins/source-command-poll/src/index.ts:506-516 | canonical values are equal exactly when the values are equal up to object key order |
| `JsonCanonical.CanonicalTextDecides` | plugins/source-api-poll/src/index.ts:245-277 | the compared texts are equal exactly when the values are equal up to object key order |
| `JsonCanonical.IndexKeysFirst` | plugins/source-api-poll/src/index.ts:249-252 | index keys are enumerated before other keys, shorter before longer |
| `JsonCanonical.OwnOrderKeeps` | plugins/source-api-poll/src/index.ts:249-252 | own-key order rearranges the entries and loses none |
| `JsonPaths.UnchangedMeans` | plugins/source-command-poll/src/index.ts:600-617 | the comparison throws exactly when both bodies parse and removing the ignored paths throws on one; otherwise two bodies are unchanged exactly when both parse and are equal up to key order once those are removed, or as text if one does not parse |
| `JsonPaths.UnchangedIsEquivalence` | plugins/source-api-poll/src/index.ts:257-277 | among comparisons that answer, unchanged is reflexive, symmetric and transitive, the text fallback included |
| `JsonPaths.ChangedForgetsPathOrder` | plugins/source-command-poll/src/index.ts:557-564 | reordering the configured ignore-paths never turns one verdict into the other, and with valid paths always gives the same answer |
| `JsonPaths.StripForgetsOrder` | plugins/source-command-poll/src/index.ts:557-564 | where it does not throw, removing the same paths in any order leaves the same value |
| `JsonPaths.CutsCommute` | plugins/source-command-poll/src/index.ts:566-583 | removing two paths commutes, prefixes and array holes included |
| `JsonPaths.CutRemovesTarget` | plugins/source-command-poll/src/index.ts:566-583 | after removal the path leads nowhere, an array keeping a hole |
| `JsonPaths.CutKeepsOthers` | plugins/source-command-poll/src/index.ts:566-583 | a path that neither leads to nor through the removed one still leads to the same value |
| `JsonPaths.ValidPathNeverThrows` | plugins/source-command-poll/src/index.ts:539-583 | on every parsed value a path of valid segments never throws and removes what the path leads to |
| `JsonPaths.WalkThrowsIff` | plugins/source-command-poll/src/index.ts:539-583 | removing a path throws exactly when the hops before its first invalid segment all exist |
| `JsonPaths.NeverThrowsIff` | plugins/source-command-poll/src/index.ts:539-583 | a path throws on no value at all exactly when all its segments are valid |
| `JsonPaths.StripWalkIff` | plugins/source-command-poll/src/index.ts:557-564 | removing several paths throws exactly when one of them does on what those before it left, and otherwise removes them all |
| `JsonPaths.InvalidPathsMindOrder` | plugins/source-command-poll/src/index.ts:557-583 | a body on which paths `a` and `a..b` are removed in one order and throw in the other |
| `JsonPaths.StripKeepsProper` | plugins/source-command-poll/src/index.ts:557-564 | removal keeps values well shaped with distinct keys |
| `JsonFields.SpellingsAgree` | plugins/source-command-poll/src/index.ts:534-537 | a path means the same with and without the leading dollar and dot, and a lone dollar removes nothing |
| `JsonFields.FieldRemoved` | plugins/source-command-poll/src/index.ts:566-583 | removing a field leaves the object's other fields in order |
| `JsonFields.WithinField` | plugins/source-command-poll/src/index.ts:566-583 | a path through a field removes within that field's value and changes nothing where there is no such field |
| `JsonFields.ElementRemoved` | plugins/source-command-poll/src/index.ts:566-583 | a canonical numeral removes the array element it counts to, from zero, leaving a hole; no other segment removes one |
| `JsonFields.SegmentThrows` | plugins/source-command-poll/src/index.ts:539-550 | a one-segment path throws, on every value, exactly when it is empty or holds one of the unsupported characters |
| `JsonFields.StripRemovesEach` | plugins/source-command-poll/src/index.ts:557-564 | after all configured paths are removed none of them leads anywhere |
| `JsonFields.StripKeepsOthers` | plugins/source-command-poll/src/index.ts:557-564 | and every path that neither leads to nor through one of them still leads to the same value |
| `CommandPoll.Observe` | plugins/source-command-poll/src/index.ts:774-867 | one observe call, given a digest of the outcomes that did not throw, observes the failing edge, the recovery edge and a change against their latest success, stores a digest of them and this one, and throws, storing and emitting nothing, exactly when that comparison throws |
| `CommandPoll.StateIsDigest` | plugins/source-command-poll/src/index.ts:781-846 | after any history the state holds the health of the last run that did not throw and the whole latest such success, however many failures lie between |
| `CommandPoll.ObservationsFromHistory` | plugins/source-command-poll/src/index.ts:781-864 | each run's observations follow from the earlier runs that did not throw: failing on the failing edge, recovered on the recovery edge, changed exactly when exit code, printed text or printed JSON, as configured, differs from their latest success; it throws exactly when that comparison does |
| `CommandPoll.HealthAlternates` | plugins/source-command-poll/src/index.ts:781-812 | failing and recovered strictly alternate starting with failing, throwing runs included, and end in failing while the last run that did not throw failed |
| `CommandPoll.ValidPathsKeepAll` | plugins/source-command-poll/src/index.ts:518-617 | with valid ignore-paths, or another strategy, no run throws and every earlier run counts |
| `CommandRun.EveryOrder` | plugins/source-command-poll/src/index.ts:299-502 | in every order of events stdout is the first min(total, 1 MiB) bytes of the chunks written, truncated exactly when more came, stderr the last min(total, 8000) of its own; timed out means the wall clock fired; an outcome is final; a fired timeout keeps SIGKILL armed until sent; an unsettled run has a settling timer armed, or timed out and waits for its child to exit |
| `CommandRun.AnyOrderIsPossible` | plugins/source-command-poll/src/index.ts:299-502 | those orders are all there are: output, errors and closes at any time, one exit, and each timer exactly while armed |
| `CommandRun.ExitBeforeTimeout` | plugins/source-command-poll/src/index.ts:445-475 | an exit before the wall clock fired is never reported as a timeout |
| `CommandRun.SettlesTruthfully` | plugins/source-command-poll/src/index.ts:405-482 | a result is reported exactly for an unsignalled ending of a run that had not timed out, with the child's own exit code and what was captured by then; each failure kind exactly for its cause |
| `CommandRun.StepInv` | plugins/source-command-poll/src/index.ts:299-502 | every event keeps capture, timers and outcome consistent |
| `CommandRun.KeepStdoutIsHead` | plugins/source-command-poll/src/index.ts:317-331 | the chunk rule keeps exactly the head of all bytes seen |
| `CommandRun.KeepStderrIsTail` | plugins/source-command-poll/src/index.ts:338-371 | the chunk rule keeps exactly the tail of all bytes seen |
| `CommandRun.Supervisor.OnExit` | plugins/source-command-poll/src/index.ts:445-475 | an exit settles a timed-out run, otherwise disarms the wall clock and arms the close fallback; capture, timers and outcome stay consistent |
| `CommandRun.Supervisor.OnWallClock` | plugins/source-command-poll/src/index.ts:485-501 | the wall clock marks the timeout, sends SIGTERM and arms SIGKILL, settled or not |
| `CommandRun.Supervisor.Settle` | plugins/source-command-poll/src/index.ts:388-393 | only the first outcome is kept and both settling timers are cleared |
| `Heartbeats.FreshInWindow` | apps/cli/src/transport-heartbeat.ts:593-615 | a record is fresh exactly from the skew tolerance before it was written to the end of its lease, and stale for good after |
| `Reaping.ReapsIffQuietLongEnough` | apps/cli/src/reap-decision.ts:64-118 | on a forward clock the loop stops at a check exactly when that check ends a quiet window of the required length |
| `Reaping.ReapsIffIdleStretch` | apps/cli/src/reap-decision.ts:64-118 | the same from the checks alone: the daemon stops at a check exactly when since some check no session was open, the registry could be read and no channel of this workspace and socket was within its lease, for the configured time once a session was seen and for at least ten seconds before |
| `Reaping.ReapMeansQuietWindow` | apps/cli/src/commands/daemon.ts:448-533 | before a reap every successful check over the required window saw no open session and no live channel lease of this daemon |
| `Reaping.ReapsWithin` | apps/cli/src/commands/daemon.ts:406-549 | once sessions, heartbeat writes and read failures cease the loop stops within the last lease end or activity plus the idle window and two gaps |
| `Reaping.IdleSinceIsEarliest` | apps/cli/src/reap-decision.ts:99-117 | the idle clock starts no later than any quiet run still going |
| `Reaping.ReapLoop.Loop` | apps/cli/src/commands/daemon.ts:406-549 | the loop applies its checks in order and stops at the first that decides to |
| `Reaping.ReapLoop.Consider` | apps/cli/src/commands/daemon.ts:448-533 | one pass updates idle clock, session flag and stop flag as the decision says; the idle clock always marks a check since which every check was quiet |
| `TransportHealth.ComputeTransportHealth` | apps/cli/src/transport-health.ts:924-1034 | deliverable exactly when an active lead exists, the daemon runs, nothing suppresses or hides a suppression, and some transport covers every lead with sound records; the reach names exactly those transports, and both rows and the shared problems are as specified |
| `TransportHealth.DeliverableMeans` | apps/cli/src/transport-health.ts:924-1034 | the verdict and the reach from the input's own fields: leads, daemon, diagnoses, and the records' kind, session, workspace, socket, home, data root and times |
| `TransportHealth.PipelineMeans` | apps/cli/src/transport-health.ts:442-560 | the shared problems from the input's own fields: the daemon down, a suppressing hold with believable ids, one without or a failed diagnosis |
| `TransportHealth.VerdictForgetsRegistryOrder` | apps/cli/src/transport-health.ts:633-676 | neither the verdict nor the reach depends on the order of the registry |
| `TransportHealth.ListensIffReached` | apps/cli/src/transport-health.ts:976-994 | a transport counts as listening exactly when its records of active leads cover all leads and are all sound |
| `TransportHealth.HeartbeatProblems` | apps/cli/src/transport-health.ts:690-778 | a record's problems, each once, are those its own workspace, socket, home, data root, session, times and version call for |
| `TransportHealth.BindingProblems` | apps/cli/src/transport-health.ts:310-382 | workspace, socket and environment mismatches are attributed exactly, never workspace and socket together |
| `TransportHealth.SuppressionProblems` | apps/cli/src/transport-health.ts:442-534 | muted exactly for a suppressing hold with trustworthy ids, undetermined exactly for one without |
| `TransportHealth.BuildTransport` | apps/cli/src/transport-health.ts:780-916 | a row unites every selected record's problems, the code of its own transport for an uncovered lead and the shared ones, runs exactly when the first record no other outranks is fresh, and is healthy exactly when running with only advisories |
| `TransportHealth.SelectHeartbeats` | apps/cli/src/transport-health.ts:633-676 | exactly the records of active leads when there are any, otherwise exactly this workspace's, freshest first |
| `TransportHealth.SelectionMeans` | apps/cli/src/transport-health.ts:633-676 | a row is about the records that speak for active leads, if any do, and otherwise about all of its transport bound to this workspace |
| `TransportHealth.RunningForgetsOrderIff` | apps/cli/src/transport-health.ts:801-899 | the running flag is the same for every order of the registry exactly when the records nothing outranks agree on being stale |
| `TransportHealth.RunningMindsOrder` | apps/cli/src/transport-health.ts:801-899 | two equally fresh leases of two leads with as many problems each, one run out: the flag follows the registry's order |
| `TransportHealth.RepresentativeLeads` | apps/cli/src/transport-health.ts:801-823 | no selected record is fresher than the representative, nor as fresh with more problems |
| `TransportHealth.NewestRecordRuns` | apps/cli/src/transport-health.ts:801-899 | when one selected record has the latest time that counts, the row runs exactly while that record's lease lasts |
| `TransportHealth.MoreProblemsLead` | apps/cli/src/transport-health.ts:801-823 | of two records as fresh as each other, the one with all the other's problems and one more represents the row, in either order |

## Left out

- Sockets, HTTP, SQLite, signals and MCP: only the events and results they deliver are modelled.
- Human wording of headers, markers and action steps is a parameter, so results hold for every wording; the model keeps which ids and events a text names.
- `net` collapse in the claim decision (libs/core/src/runtime/service.ts:2077-2110): every settled event represents itself.
- Rows the store suppresses or retracts are not rows of the model; acknowledging may name any rows at any time.
- DeliveryDaemon.ClaimMatchesPreview: does not model the message text of high-urgency and recap claims, which no renderer shows beside their events.
- DeliverySystem.EveryInterleaving: takes reservation ids as fresh, where the code relies on ULIDs being unique.
- DeliveryLoops.ReserveSized: the two previews the code requests together run one after the other, the settled events first.
- DeliveryLoops.SurfaceAndCommit: has no branch for a null rendering, which DeliverySystem.DecisionRenders shows the daemon's claims never produce.
- DeliveryRetry.Poll: the wait between polls, the session lookup and the heartbeat written after each are not modelled; undisturbed, the clock stands still and nothing new is recorded.
- DeliveryRender.RenderWithinCap: the channel's `meta` attributes are not modelled.
- JsonPaths.CutsCommute: removal works on values rather than in place; a deleted array element leaves the same hole.
- JsonText.PrintUnique: numbers are opaque tokens of the shape JSON prints, and a `__proto__` key is an ordinary key.
- CommandPoll.Observe: plain mode only; keyed collections are not part of this model.
- CommandRun.EveryOrder: stderr is kept as bytes; its decoding and the last 2000 characters of it are not modelled.
- VerifyObserve.VerdictsAreTrue: record ids are integers in recording order, where the code compares ULID strings.
- TransportHealth.ComputeTransportHealth: problem codes only; details, remediation text and the wording of the verdict are not modelled.
- Reaping.ReapLoop.Loop: the tick before each check and the sleep after it are not modelled; `path.resolve` is any function.
- `--debug` diagnostics and the preview count kept for them.
- `readBoundedBody`, `countCodePointsUpTo`, source scheduling, file fingerprints and the startup lock: they would add short one-function facts, or rest on file-system assumptions the code does not fix.
