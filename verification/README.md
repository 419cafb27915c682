# Revocation protocol and trial measurement: a verified model

This project models the part of the repository that decides whether a compromised workload is denied, and
the part that measures how long that took. It proves properties of both, and of the two together.

**The actuator** (`cmd/actuator`) receives Security Event Tokens. Any number of HTTP handlers run at once.
Each strips the scheme off a SPIFFE ID, takes a mark in a shared map, appends the principal to a DENY
policy with a JSON patch, rolls the mark back when the patch errors, strips a label off the workload's
pods, and accounts for the event in a counter, two histograms and a log line. A reset call may sweep the
map meanwhile, an operator may re-apply the seeded manifest, and others may append to the same list.

* `Protocol.dfy` is the transition system: one step per atomic action of the code, in any interleaving.
  The answer of the API server is nondeterministic; a patch may error without being applied, be applied and
  still be answered with an error, or be applied at any time after its client gave up on it. A mark is held
  from LoadOrStore to the return or the rollback, so a reset in between lets a second handler take the same
  key, and the first one's rollback can then remove the second one's mark.
* `Ledger.dfy`, `Safety.dfy`, `Resets.dfy`, `Determinism.dfy` and `Accounting.dfy` prove what every run
  keeps; `Observations.dfy` that the histograms hold what the log shows, stage by stage; `Restart.dfy` that
  after a trial reset every run is one of a fresh process, and when that fails.
* `Actuator.dfy` is the code as it is written: a class whose methods change the map, the policy, the
  counters, the histograms, the pods and the log. `Sequential.dfy` shows that one uninterrupted call is one
  schedule of the transition system. `LogLines.dfy` says key by key what one event writes into the log.
* `Json.dfy`, `Policy.dfy`, `Labels.dfy`, `Identity.dfy` and `Spans.dfy` hold the two patch languages
  (section 4.1 of RFC 6902, section 2 of RFC 7396), the seeded policy, the label strip over a cluster of
  pods, SPIFFE IDs, and the span table with the timing headers.

**The translator** (`cmd/translator`) turns kernel events into tokens: `Translator.dfy`, up to the end-to-end
statement from event streams to the final policy.

**The measurement join** (`scripts/trial_record.py`) reads three text logs back and writes one row.

* `Logfmt.dfy` has slog's text form beside the script's scanner, unquoter and line reader; `Rfc3339.dfy`
  has Go's timestamp form beside the script's calendar arithmetic. `LogText.dfy` and `Calendar.dfy` say what
  the reader makes of any text and of any date, with nothing of the printer in the statements.
* `TrialJoin.dfy` and `Record.dfy` are the script's loops and its `main`; `JoinRules.dfy` says which lines
  of any parsed log these count, keep and take for the edges of the deny window.
* `Prober.dfy` is Service A's sequential prober (`cmd/service-a`) as a timed trace. The instant tau at which
  the deny goes live is never observed; the module proves what the script may conclude about it.
  `ProberText.dfy` carries that over to the prober's text log.
* `Agreement.dfy` and `Trial.dfy` tie process and script together: counters against counts, the sampled
  line against the first revoked event, and the whole row of a trial against the run, the trace and tau.

`Common.dfy` and `Text.dfy` are helpers for sequences and decimal text.

## What turned out false

* **A 202 means denied.** A `deduped` answer can be given while the holder's patch is still on its way,
  and that patch can then fail (`Safety.DedupedNotDenied`). `Safety.DeniedIff` says exactly when a principal
  is denied once all handlers are done; `Safety.NothingLost` and `Safety.DedupeIsBacked` are what holds instead.
* **The deny window always contains tau** (docstring at scripts/trial_record.py:196-213). The lower edge is
  the log stamp minus the truncated round trip time, and the log stamp is taken after the round trip was
  read. The edge therefore lies later than the true send time by the gap between the two readings plus up
  to 999 ns (`Prober.Bracketing`). From any part of the log, the window is before every tau that explains the
  statuses the prober observed, those of failed body reads included, exactly when its lower edge is not after
  the arrival of the last 200 (`Prober.WindowSafeIff`). From the whole log that edge is the start plus the
  overshoot of the last 200 whose body was read, so when that is also the last 200, the condition is that its
  overshoot is no longer than it took to arrive (`Prober.WholeLogSafeIff`, on the text `ProberText.TextSafeIff`,
  on the row `Trial.TrialBracketIff`). `Prober.WindowMissesTau` with `Prober.MissWitness`, a prober preempted
  between the two readings, is a trace whose window excludes tau. The upper edge is safe but for the next item.
* **A left-over 403 cannot be mistaken for this trial's** (scripts/trial_record.py:215-217). With the earlier
  deny lifted at rho, it is not mistaken exactly when every 403 that arrived before rho was logged before T0
  (`Prober.LeftoversHarmlessIff`). After a missed reset the old deny also answers after T0, and the window the
  script finds in the text ends there, before tau (`ProberText.MissedReset`).
* **Re-applying the manifest resets the system.** Alone it leaves stale marks, under which a fresh event is
  deduped and nothing is denied (`Resets.ReapplyAloneLosesIff`, `Resets.StaleMarkDedupes`). With the reset
  call it does (`Restart.ResetIsFresh`), with two exceptions. While an older reset call is still running, and
  only then, a later sweep step of that call can remove a new mark and let two handlers hold one principal
  (`Restart.ResetOneHolderIff`, `Restart.OverlappingResets`). And a patch whose client gave up on it may still
  be applied afterwards: the runs are those of a fresh process with nothing out exactly when there is no
  such patch (`Restart.ResetFreshIff`, `Restart.LatePatchLands`).
* docs/trial-reset.md quotes the dedupe message as "skipping mesh patch"; the code logs "mesh patch skipped"
  (cmd/actuator/main.go:234), and the model follows the code.

## Model

| member | source | states |
|---|---|---|
| Ledger.Conservation | cmd/actuator/mesh.go:48-69 | over every interleaving: successes of p, plus handlers holding p, plus rollbacks that found their mark gone, equal p's mark plus the marks of p that resets removed; a mark is always backed by a success or a holder; successes equal events answered revoked |
| Ledger.OccurrenceBound | cmd/actuator/mesh.go:48-69 | p is in the policy at most once per mark ever alive beyond the seed's own entries, counting applied-but-errored patches and other writers' appends; so at most 1 + resets of p otherwise |
| Ledger.WithoutResets | cmd/actuator/mesh.go:48-50 | with no reset of p, successes plus holders are exactly one when p is marked and none otherwise: one holder at a time |
| Ledger.PolicyStep | cmd/actuator/mesh.go:52-63 | each step leaves the list alone, appends one value at its end, or puts the seed back; unless re-applied, no other node of the policy changes |
| Ledger.InvStep | cmd/actuator/mesh.go:41-70 | the four conservation laws, for every principal at once, are kept by every step |
| Safety.NothingLost | cmd/actuator/mesh.go:64-68 | without a re-apply, resets or not: once all handlers are done every SPIFFE subject received is denied or had an event that ended as failed |
| Safety.DedupeIsBacked | cmd/actuator/mesh.go:48-50 | without a re-apply: a deduped answer is given only while the principal is in the policy or another handler is at work on it |
| Safety.DeniedIff | cmd/actuator/main.go:216-252 | without a re-apply: at quiescence a principal is denied exactly when some event of it was answered revoked, or its entry came from a patch that was applied yet errored, another writer or the seed |
| Safety.DedupedNotDenied | cmd/actuator/mesh.go:48-68 | a concrete schedule, for every seed without p, in which a deduped 202 is given and the policy ends as the seed |
| Safety.NoLostUpdate | cmd/actuator/mesh.go:30-37 | without a re-apply each list is a prefix of every later one, so the first entry stays first and the list is never emptied, and nothing else in the document changes |
| Safety.SoundRun | cmd/actuator/mesh.go:35-40 | along every run without a re-apply, each marked principal stays denied or at work, and each answer stays justified |
| Resets.ResetUnderTraffic | cmd/actuator/main.go:103-108 | when a sweep ends beside running handlers, whatever is still marked was stored after it began; the count answered is the number of keys visited |
| Resets.SweepsRun | cmd/actuator/main.go:103-108 | the accounting of every concurrent sweep against the shared map holds along every run |
| Resets.TrialResetCleans | Makefile:157-159 | from a quiescent point of any run, a re-apply and a completed reset, in either order among idle steps, leave nobody at work, nothing marked, the seed's policy and the counters |
| Resets.ReapplyAloneLosesIff | docs/trial-reset.md:21-24 | after a re-apply alone, "marked means denied or at work" survives exactly when every marked principal is in the seed |
| Resets.StaleMarkDedupes | docs/trial-reset.md:21-24 | each other marked principal's next event is deduped at once and leaves the policy as the seed |
| Restart.ResetIsFresh | cmd/actuator/main.go:83-90 | after a trial reset with no reset call still running, whatever ran before, every run is the run of a fresh process facing the same patches still out: same answers, marks, policy, new samples, log lines and counter movements |
| Restart.FreshAfterReset | cmd/actuator/main.go:83-90 | and every run of a fresh process runs there, with the same outcomes |
| Restart.ResetFreshIff | cmd/actuator/main.go:83-90 | that fresh process has nothing out, on every run, exactly when no earlier client gave up on a patch the server may still apply |
| Restart.LatePatchLands | cmd/actuator/mesh.go:62-68 | such a patch puts its principal in the policy with nobody at work and no event received |
| Restart.ResetOneHolderIff | cmd/actuator/main.go:103-108 | after a trial reset, runs that begin no reset keep one holder per principal exactly when no older reset call is still running |
| Restart.OverlappingResets | cmd/actuator/main.go:95-117 | a run in which a trial reset completes inside an older reset call exists for every seed |
| Restart.RunIsFresh | docs/trial-reset.md:10-30 | from every state with nobody at work, no reset running, nothing marked and the policy at the seed, every run is a fresh process's run, carried out by later handlers and sweeps |
| Restart.CleanIsFresh | docs/trial-reset.md:10-30 | and the other way round: a fresh process's schedule runs there exactly when it runs in a fresh process, with the same outcomes |
| Restart.StepAlike | cmd/actuator/main.go:103-108 | behind handlers and sweeps that have ended, each atomic step is enabled in the one process exactly when in the other, and keeps the two states alike |
| Restart.OldStay | cmd/actuator/main.go:103-108 | behind ended handlers and sweeps only later ones move |
| Restart.OneHolderIff | cmd/actuator/main.go:103-108 | the same equivalence from every emptied state |
| Restart.OldSweepBites | cmd/actuator/main.go:103-108 | for every reset call left running, a schedule that begins no reset and ends with two holders of one principal |
| Determinism.RefinesSequential | cmd/actuator/mesh.go:41-70 | from any quiescent state, with no failures, resets or other writers, every interleaving ends with the counters and dedupe set of handling its SETs one after another, and the policy is the old list followed by each principal not marked before exactly once |
| Determinism.InsertAllCounts | cmd/actuator/main.go:232-236 | the sequential outcome from any set of marks: revoked counts the new distinct principals, deduped the other well-formed events, failed the rest |
| Determinism.InterleavingsAgree | cmd/actuator/mesh.go:35-40 | two such runs over the same SETs, in any order and interleaving, end with the same counters and dedupe set, and with policy lists that are permutations of each other |
| Determinism.OrderIrrelevant | cmd/actuator/main.go:232-236 | the sequential outcome depends on the multiset of SETs only |
| Accounting.CountersMatchLog | cmd/actuator/main.go:216-250 | between quiescent points of any run each counter moved by exactly the number of log lines that report its outcome |
| Accounting.SamplesMatchLog | cmd/actuator/main.go:240-250 | over any run between quiescent points, the samples observeSpans put into the pipeline histogram are one per revoked event with a known T0, and one per revoked line that carries the pipeline span |
| Observations.StageSamplesMatchLog | cmd/actuator/metrics.go:69-96 | for every stage and every value: the histogram of that stage gained exactly as many samples shown as that value as revoked lines were logged with it in the stage's column |
| Observations.StageRun | cmd/actuator/main.go:240-250 | at every point of every run samples, lines and handlers whose line is due balance, for each stage and value |
| Accounting.EachCountedOnce | cmd/actuator/metrics.go:37-43 | from a fresh process, at quiescence the three counters add up to the SETs received |
| Accounting.OutcomeLineSays | cmd/actuator/main.go:216-250 | the line logged for an event reports its own outcome and time, whatever the subject, jti or error text, and has the pipeline span exactly when a sample was taken |
| Actuator.Process.RevokeInMesh | cmd/actuator/mesh.go:41-70 | one call leaves map and policy as specified for each answer of the API server and reports revoked, deduped or failed; on failure the mark is gone |
| Actuator.Process.PatchPolicy | cmd/actuator/mesh.go:52-68 | appends unless refused or the list is missing; errors unless applied and answered |
| Actuator.Process.HandleEvent | cmd/actuator/main.go:150-253 | one whole event: the notes, the mesh answer, the pods stripped and the label lines that follow from how that ended, then counter, the samples of both histograms, and outcome line |
| Actuator.Process.ResetDedupe | cmd/actuator/main.go:103-108 | with nobody beside it the loop empties the set and reports its size |
| LogLines.HandleLogs | cmd/actuator/main.go:173-252 | one decoded event logs its note, the lines of its label strip and one outcome line, and moves the one counter of that outcome; which outcome follows from principal, marks and the API server's answer |
| LogLines.GarbledLogs | cmd/actuator/main.go:151-159 | a body that is no SET is logged and counted as failed |
| LogLines.FailedLine | cmd/actuator/main.go:216-225 | key by key: a failed event's line carries its error, subject and jti, and no result or policy |
| LogLines.GarbledLine | cmd/actuator/main.go:151-159 | and that of an undecodable body its error alone |
| LogLines.AnsweredLine | cmd/actuator/main.go:232-250 | a revoked or deduped event's line carries message, jti, subject, policy and result, and no error |
| LogLines.AnsweredColumns | cmd/actuator/main.go:243-250 | and its clock and span columns are those of T0, T1, T3 off the event and T4, T5, T6 of the handler |
| LogLines.CompromisedLine | cmd/actuator/main.go:172-176 | the note on arrival, with subject, jti and T0, zero when it is missing |
| LogLines.StripLine | cmd/actuator/main.go:205-214 | the label strip logs its error with the subject, or the number of pods it stripped when there are any |
| LogLines.StripAnswerSays | cmd/actuator/labels.go:42-84 | it logs an error exactly when the subject has no workload, the listing failed or a pod of the identity is still labelled, and else the number of pods that changed |
| Sequential.SequentialIsRun | cmd/actuator/main.go:150-253 | from any state, however its label strip ends, an uninterrupted event is a schedule of the transition system with exactly the effect the imperative method has |
| Sequential.MeshPath | cmd/actuator/mesh.go:41-70 | the same for the mesh part, for each answer of the API server |
| Json.AppendSucceedsIff | cmd/actuator/mesh.go:52-56 | an add at "-" succeeds exactly when the parent exists and is a container (section 4.1 of RFC 6902) |
| Json.AppendGrows | cmd/actuator/mesh.go:30-33 | the array grows by exactly the value, at its end |
| Json.AppendFrame | cmd/actuator/mesh.go:30-33 | every other pointer, old items included, resolves as before |
| Json.MergeIdempotent | cmd/actuator/labels.go:57-60 | applying any merge patch twice is applying it once, on every document |
| Json.MergeCommutes | cmd/actuator/labels.go:57-60 | merge patches that write no common leaf commute on every document |
| Json.MergeSets | cmd/actuator/labels.go:57-60 | a merge patch removes what it gives as null and sets every other value it gives, at any depth |
| Json.MergeKeeps | cmd/actuator/labels.go:57-60 | and leaves everything beside it as it was |
| Policy.AppendEffect | cmd/actuator/mesh.go:52-63 | given the list, the patch succeeds, the list grows by the value, and all off-path nodes stay |
| Policy.SeedHasList | deploy/istio/authorization-policy-deny-revoked.yaml:22-36 | the seeded manifest has the list the patch needs, with the placeholder in it |
| Policy.SeedDenies | deploy/istio/authorization-policy-deny-revoked.yaml:27-31 | the seeded policy denies, on the one workload it selects |
| Labels.Cluster.RemoveSpireLabel | cmd/actuator/labels.go:42-84 | for every cluster and every set of refused pods: successes plus errors are the labelled pods of that namespace and account, all but the refused lose the label, nothing else changes, pods of other namespaces and accounts not at all, and the error is non-nil exactly when some pod was refused |
| Labels.Cluster.StripListed | cmd/actuator/labels.go:62-81 | the loop, with the pods that were patched and those whose error was collected |
| Labels.CarriersAre | cmd/actuator/labels.go:48-71 | the pods stripped are those of the namespace that carry the label, whatever its value, and run as the account |
| Labels.StripFrame | cmd/actuator/labels.go:57-60 | the label goes, every other node of the pod resolves as before |
| Labels.StripUnlabels | cmd/actuator/labels.go:48-60 | a stripped pod is not selected again, and still runs as the same account |
| Labels.RepeatFindsRefused | cmd/actuator/labels.go:39-41 | after a pass exactly the refused pods are left to find; after one without refusals, none, and a repeat changes nothing |
| Labels.StripCommutes | cmd/actuator/labels.go:57-60 | the strip commutes with every merge patch of other labels |
| Identity.ParseAcceptsIff | cmd/actuator/labels.go:90-106 | accepted exactly when of the form spiffe://td/ns/ns/sa/sa with nonempty slash-free parts |
| Identity.ParseBuiltIff | cmd/actuator/labels.go:86-106 | inverts the naming convention for nonempty slash-free parts and errors for all others |
| Identity.ParseOnlyBuilt | cmd/actuator/labels.go:90-106 | an accepted ID is rebuilt from what was read off it |
| Identity.PrincipalInjective | cmd/actuator/mesh.go:43-46 | the stripped principal is injective in trust domain, namespace and service account, and the label strip reads the same namespace and account off the subject |
| Identity.PrincipalDetermines | cmd/actuator/mesh.go:43-46 | an accepted subject is determined by its principal |
| Identity.PrincipalIff | cmd/actuator/mesh.go:43-46 | a subject has a principal exactly when it is the scheme followed by something, and then that |
| Identity.BuiltUriTargets | cmd/translator/main.go:196-202 | a URI the translator builds always yields its principal, and is parsed back by the label strip exactly for nonempty slash-free namespace and app label |
| Spans.PipelineSpans | cmd/actuator/main.go:283-305 | the attributes of the known stamps, then of the known spans |
| Spans.ColumnUnits | cmd/actuator/main.go:299-303 | each named duration column is the time between its two clocks in whole microseconds, cut toward zero, and absent when one is unknown |
| Spans.StampColumns | cmd/actuator/main.go:294-298 | each named stamp column is its clock in nanoseconds |
| Spans.Histograms.ObserveSpans | cmd/actuator/metrics.go:85-96 | the samples added to each histogram |
| Spans.LogMatchesHistograms | cmd/actuator/metrics.go:69-96 | a stage column is logged exactly when an actuated event adds a sample of that stage |
| Spans.PipelineSamples | cmd/actuator/metrics.go:85-93 | one pipeline sample of T6 - T0 when both are known, none otherwise |
| Spans.StageSamples | cmd/actuator/metrics.go:69-96 | the stage samples of one actuated event, by name: the full nanoseconds between the two clocks of each stage both of which are known |
| Spans.ColumnIsSample | cmd/actuator/metrics.go:69-96 | an actuated event adds to the histogram of a stage exactly the sample its stage column shows, for every stage and value |
| Spans.StagesUndershootPipeline | cmd/actuator/main.go:299-303 | for ordered clocks the stages in whole microseconds and the T4-T5 gap undershoot the pipeline column by 0 to 4 microseconds |
| Spans.HeaderRoundTrip | cmd/actuator/main.go:259-274 | a 64-bit stamp the translator formats into a header is read back, zero as absent |
| Spans.HeaderReads | cmd/actuator/main.go:259-274 | a header is a stamp exactly when it is digits, with or without a sign, that make a 64-bit number other than zero |
| Translator.Drain | cmd/translator/main.go:97-178 | one stream: a request for each kprobe event with pod attribution, in order, up to its end or first error |
| Translator.Receive | cmd/translator/main.go:86-184 | the same over reconnects |
| Translator.PostedIff | cmd/translator/main.go:108-135 | a request is posted exactly for the attributed messages |
| Translator.Posted | cmd/translator/main.go:108-135 | an attributed event is posted as one SET: subject from namespace and app label, T0 from Tetragon or else T1, issued at the mint clock, T1 and T3 in the headers |
| Translator.HeardPrefix | cmd/translator/main.go:97-107 | of a stream all is heard up to its end or first error |
| Translator.AllHeardAppend | cmd/translator/main.go:86-184 | streams are heard one after another, over reconnects |
| Translator.ClocksArrive | cmd/translator/main.go:119-122 | the actuator decodes the translator's own clocks, T0 falling back to T1 |
| Translator.EventsToPolicy | cmd/translator/main.go:108-135 | end to end, from any quiescent state, without failures or resets: the policy ends as it was, followed by the principal of each attributed kprobe event not marked before exactly once and nothing else, whatever duplicates, order and interleaving; no event fails |
| Rfc3339.FormatRoundTrip | scripts/trial_record.py:101-114 | the reader inverts Go's trailing-zero-dropping form for every nanosecond instant of years 1 to 9999, hence keeps order |
| Calendar.Epoch | scripts/trial_record.py:101-114 | 1970-01-01T00:00:00Z reads as zero |
| Calendar.Reads | scripts/trial_record.py:101-114 | every stamp reads as the nanoseconds that the lengths of the calendar's months, 86400 seconds a day, its time of day and its fraction make it, days beyond the month's end included |
| Calendar.NextDay | scripts/trial_record.py:113 | one calendar day later is 86400 seconds later, over month ends, 29 February and the turn of a year |
| Calendar.ReadsOnlyPieces | scripts/trial_record.py:82-84 | nothing but date, T, time, up to nine fraction digits and Z is read; a zero year or an impossible month raises |
| Calendar.PiecesAreRead | scripts/trial_record.py:82-84 | and every text of that shape is read, or raises exactly then |
| Calendar.PrintsBack | scripts/trial_record.py:80-84 | the printer gives back the stamp of every date and time that exist as it was read, without trailing zeros |
| Rfc3339.CivilOfIsInstant | scripts/trial_record.py:113 | the closed Gregorian formula inverts walking the calendar year by year and month by month |
| Rfc3339.WalkYearsCounts | scripts/trial_record.py:113 | year by year counting agrees with the leap-day formula |
| Rfc3339.TailRoundTrip | scripts/trial_record.py:80-84 | zero to nine fraction digits pad back to the nanoseconds |
| Rfc3339.UnixNanoInRange | cmd/actuator/main.go:32-39 | every 64-bit nanosecond stamp is in the reader's range |
| Logfmt.ValueSurvivesIff | scripts/trial_record.py:87-93 | a printed value is read back unchanged exactly when it was printed bare or all its Go escapes are JSON escapes |
| Logfmt.JsonTextEscape | scripts/trial_record.py:87-93 | json.loads undoes strconv.Quote on exactly those texts and fails on all others |
| Logfmt.FindAllPrinted | scripts/trial_record.py:78 | the pattern finds exactly the printed tokens of every line, whatever the values hold |
| Logfmt.ParsedField | scripts/trial_record.py:96-98 | field by field a parsed line has the printed keys and their recovered values; text inside a value never becomes a field |
| Logfmt.ReadPrinted | scripts/trial_record.py:117-121 | a printed log parses to one dict per line, in order; no value breaks a line |
| LogText.BareField | scripts/trial_record.py:78 | on any text: a bare value runs to the next white space, over further equals signs |
| LogText.QuotedField | scripts/trial_record.py:78 | a quoted value runs to its closing quote, over white space, equals signs and escaped quotes |
| LogText.Skipped | scripts/trial_record.py:78 | words without an equals sign are passed over |
| LogText.NoFields | scripts/trial_record.py:96-98 | a line without an equals sign yields an empty dict |
| LogText.LineEnds | scripts/trial_record.py:117-121 | a line ends at any line boundary, and a carriage return takes the line feed after it along |
| LogText.BlankSkipped | scripts/trial_record.py:117-121 | a line of white space is no record |
| TrialJoin.FindActuation | scripts/trial_record.py:159-190 | the first revoked line, and the counts of event, deduped and failed lines |
| JoinRules.EventsAre | scripts/trial_record.py:173-189 | which lines of any log these are: by the result alone where there is one, else by the two failure messages |
| JoinRules.EventsAddUp | scripts/trial_record.py:173-189 | every event is a revoked, deduped or failed one, or has some other result |
| TrialJoin.WithinTrial | scripts/trial_record.py:147-156 | the lines at or after the bound, in order, all of them without one; raises exactly on an impossible date |
| JoinRules.Kept | scripts/trial_record.py:147-156 | a bounded trial keeps exactly the lines stamped at or after the bound; an unbounded one all |
| TrialJoin.WindowStart | scripts/trial_record.py:129-144 | the earliest stamp, none without stamps, raising on an impossible date |
| TrialJoin.FindDenyWindow | scripts/trial_record.py:193-238 | the stamp of the first eligible 403 with the send bound of the last 200 before it; raises exactly when an impossible date comes before one |
| JoinRules.WindowEdges | scripts/trial_record.py:222-238 | in terms of the fields: the first stamped 403 from T0 on ends the window; the last 200 before it starts it at its stamp less its rtt in microseconds, and not at all when its rtt is missing or no number |
| TrialJoin.WindowUnique | scripts/trial_record.py:222-238 | that contract leaves one answer |
| TrialJoin.RecvDecides | scripts/trial_record.py:223-227 | lines other than stamped recv lines do not move the window |
| TrialJoin.TrialIsolated | scripts/trial_record.py:268-275 | the bound cuts an accumulated log exactly between the trials |
| TrialJoin.UnboundedRepeatsFirst | scripts/trial_record.py:140-143 | without the bound the first trial's sample is reported for every later one |
| TrialJoin.AssembleRow | scripts/trial_record.py:285-329 | spans only between known ends, pipeline + enforce = end_to_end, the mid columns with a proper bracket only, the result column |
| TrialJoin.MidpointError | scripts/trial_record.py:304-308 | the midpoint is within half the window, rounded up, of any instant inside |
| Record.RecordTrial | scripts/trial_record.py:251-329 | for any three texts the row and counts follow from the windowed lines and the deny window searched from T0; it dies exactly on an impossible date or a bad integer |
| Record.CellsCopied | scripts/trial_record.py:282-297 | the copied cells are the fields of a revoked line, empty where it lacks one; in a no_revocation row they and the actuator's stamps are empty |
| JoinRules.DiesIff | scripts/trial_record.py:251-299 | it dies exactly of an impossible date in a stamp it looks at, or of a T0 or T6 that is no integer |
| Record.EndToEndNotNegative | scripts/trial_record.py:215-217 | end_to_end is never negative, and the result is revoked exactly with a sample and a deny |
| Record.IntRoundTrip | scripts/trial_record.py:291-292 | int() reads every integer the actuator prints |
| Record.IntTrims | scripts/trial_record.py:291-292 | white space around a number does not matter to int() |
| Record.IntUnderscore | scripts/trial_record.py:291-292 | single underscores between digits do not count, two in a row are an error |
| Record.IntRejects | scripts/trial_record.py:291-292 | a text with a character that is no digit, underscore, sign or white space is an error |
| Prober.Prober.Probe | cmd/service-a/main.go:72-100 | one call: what it counts and what it logs for each way a request can end |
| Prober.Prober.Loop | cmd/service-a/main.go:66-69 | the log and the request counter after a series of calls |
| Prober.TallyCounts | cmd/service-a/main.go:89-91 | each status series counts exactly the calls whose status line came back with that status, failed body reads included; the error series those without a response; a request that could not be built moves no series |
| Prober.RecvLineSays | cmd/service-a/main.go:99 | key by key: status, body, and the round trip in whole microseconds |
| Prober.ErrorLineSays | cmd/service-a/main.go:75-97 | key by key: the error, under the message of the step that failed |
| Prober.Bracketing | scripts/trial_record.py:193-238 | for every trace, every tau and any part of the log: tau is at most the upper edge, and the lower edge minus that call's exact overshoot, below the stamp gap plus 1000 ns, is before tau |
| Prober.ExactBracketing | scripts/trial_record.py:196-207 | tau is in (lower, upper] when the overshoot of the one call behind the lower edge is within its send-to-arrival time |
| Prober.WindowSafeIff | scripts/trial_record.py:196-207 | for any part of the log, the window find_deny_window returns is before every tau that explains all observed statuses exactly when its lower edge is not after the arrival of the last 200 |
| Prober.WholeLogSafeIff | scripts/trial_record.py:196-207 | for the whole log of any trace, exactly when the start plus the overshoot of the last 200 that was read is not after the arrival of the last 200 |
| Prober.WindowMissesTau | scripts/trial_record.py:206-207 | when it fails, a deny right after the arrival is excluded from the window |
| Prober.MissWitness | cmd/service-a/main.go:99 | such calls exist: 50 us to the sidecar, and a preemption of 200 us between reading the round trip time and stamping the line |
| Prober.LossOnlyWidens | scripts/trial_record.py:228-236 | for any trace, errored requests and failed body reads included, losing recv lines or rtts can only widen the window or drop a bound |
| Prober.LeftoversHarmlessIff | scripts/trial_record.py:215-217 | the upper edge is a 403 of this trial's deny exactly when every 403 that arrived before the earlier deny was lifted was logged before T0, and else one of the earlier deny |
| ProberText.CallProbed | cmd/service-a/main.go:72-100 | every line a call logs is its recv line, or no recv line at all |
| ProberText.TextDrawn | cmd/service-a/main.go:81-99 | any printed part of the prober's log, whatever the bodies hold, parses to lines drawn from its calls, so bracketing holds of the text |
| ProberText.TextComplete | cmd/service-a/main.go:72-100 | the recv lines parsed from the text of any trace are those of the calls that were answered and read, one each, in order |
| ProberText.TextLossOnlyWidens | scripts/trial_record.py:228-236 | losing lines of the prober's text log never narrows the window |
| ProberText.TextSafeIff | scripts/trial_record.py:196-207 | the exact condition of the window, on the text of any trace |
| ProberText.MissedReset | scripts/trial_record.py:215-217 | a trace under a missed reset whose text gives a window that ends at the old deny's 403, before tau |
| Agreement.ReaderMatchesCounters | scripts/trial_record.py:159-190 | between quiescent points of any run, find_actuation over the text logged in between returns the counters' deltas, with the first revoked line as sample |
| Agreement.TrialMatchesCounters | scripts/trial_record.py:268-275 | the same for one trial cut out of the text of a whole run |
| Agreement.ReadSays | scripts/trial_record.py:173-189 | a line is filed under the outcome it reports, whatever text it carries |
| Agreement.ReadStamp | scripts/trial_record.py:101-114 | the script reads the exact instant a line was logged at |
| Agreement.WindowCuts | scripts/trial_record.py:147-156 | the bound cuts the text of a whole run at the trial |
| Trial.TrialRow | scripts/trial_record.py:268-297 | a trial's row has the counters' deltas, and the T0, T6, jti, subject and stage columns, in whole microseconds, of the first revoked event that arrived in it, or no sample exactly when none was revoked |
| Trial.TrialBracket | scripts/trial_record.py:299-319 | from any part of the prober's text, tau is at or before t8, and the midpoint is within half the window of tau, plus on one side the overshoot of the one call behind the lower edge, which falls away when that call meets the condition |
| Trial.TrialBracketIff | scripts/trial_record.py:299-319 | from the whole text, the row's bracket is before every tau that explains all observed statuses exactly when the bound of the last 200 read is not after the arrival of the last 200 |
| Trial.RevokedLogged | cmd/actuator/main.go:243-250 | every revoked line a run adds is the outcome line of a handler that arrived during it |

## Left out

- JWT, JSON and base64 coding (internal/caep/set.go): decoding is a partial function from a body to subject, jti and T0, given with each event; EncodeUnsigned is taken to succeed.
- HTTP and gRPC transport, client timeouts, reconnect sleeps, flags and environment: a handler's run starts with a body that was read, so the answers to a wrong method or an unreadable body, which touch nothing modelled, are not there; neither are the status codes beyond the outcome they mirror.
- The error return of json.Marshal (cmd/actuator/mesh.go:57-60): it has the effect of a refused patch, and cannot occur for a string.
- The Kubernetes API server beyond its patch semantics: its refusals, lost answers, late applications and list errors are nondeterministic inputs. Pods do not change while one label strip runs; a listing's order is arbitrary.
- A label strip's effect on the cluster is in Actuator.Process.HandleEvent, not in the transition system's state; there it shows as a log line only. T4, T5 and T6 are given to the transition system when the histograms are fed, and the outcome line carries the same ones.
- Istio, Envoy, SPIRE and Tetragon: enforcement is the one instant tau.
- slog and strconv are not part of the repository: the form modelled is the one stated at scripts/trial_record.py:75-77, for every choice of printable characters outside ASCII. Text is a sequence of Unicode scalar values; invalid UTF-8 is not modelled, and an escape for half a surrogate pair counts as undecodable.
- Digits are ASCII digits where Python's \d, isdigit and int() take every Unicode digit.
- Durations and instants are unbounded integers: Go's 64-bit wrap-around and the saturation of time.Sub are not modelled. All clocks are one host clock, as scripts/trial_record.py:4 takes them to be, and nothing steps it.
- Histogram buckets, quantiles, dashboards and scraping; the samples themselves are modelled.
- ms(), next_trial_id, the CSV file, the note and the printed summary: the row is kept in nanoseconds.
- The translator's own log lines; its first stamp enters as the bound of the trial.
- Agreement.TrialMatchesCounters: takes as given that earlier lines precede the translator's first stamp and the trial's own follow it, because nothing in the script or the processes orders the two logs; the reset procedure does.
