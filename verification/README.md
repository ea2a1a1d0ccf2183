# Call-quality service: verified model

A Dafny model of the core logic of a call-quality service: audio recordings are transcribed and judged by durable
background jobs, reports are written against versioned checklists, and summaries and HTML reports are produced from
them. `dafny verify dfyconfig.toml` checks the whole project.

## What is modelled

- **Report templates** (`TemplateSyntax`, `TemplateValidator`, `TemplateRenderer`, `TemplateOutput`,
  `TemplateAgreement`, `TemplateDisagreement`, `ReportContext`, `ReportValues`). A small Mustache-like language over a
  flat token stream. The validator is a pass with two stacks; the renderer moves one cursor, rewinds it for every list
  item and skips sections by counting tags of one name. Neither builds a tree. The main results: the validator accepts
  exactly the streams of well-scoped trees, the cursor machine computes the recursive meaning of the tree, that
  meaning is what the tags and sections promise of the data, and validator and renderer mean the same by every
  rendered reference exactly when no section between it and the section that binds it disturbs it, for every report.
- **The job queue as a protocol** (`JobQueue`, `JobEngine`, `JobProtocol`, `JobRuns`, `JobDrain`, `JobRefinement`,
  with `DailyCap`, `Backoff`). Job rows, workers holding claimed snapshots, a clock, webhooks that are lost, early or
  repeated, a reconciler and crashes, interleaved in any order; each committed transaction is one step. An inductive
  invariant gives legality of every committed change, exclusive live claims, no stranded job, attempt accounting,
  at-most-once advancement and conservation of the daily cap over every run; a backlog over the cap drains in as many
  days as the cap requires and no fewer. The classes that do the work are proved to take the protocol's steps.
  Assumptions: a worker commits before its lease ends or not at all (a counter-run shows that this is needed), the
  provider's verdict on a transcript never changes and its ids are fresh, `max_attempts >= 1`, and the clock does not
  go back.
- **Rate and retry arithmetic** (`TokenBucket`, `Backoff`, `DailyCap`), over reals: a window bound over any
  interleaving of acquirers, with a run that reaches it, and a bound on the total wait of the retry loop.
- **Checklist versions** (`Checklists`, `ChecklistVersions`, `ChecklistStore`): what a report was judged against never
  changes while the report exists, and exactly which edits keep a family's versions in order.
- **Scoped configuration** (`Scope`): folder, portfolio, global, with the frame of every activation step.
- **Output schemas** (`OutputSchema`, `SchemaErrors`): the upload check, exactly which schemas it accepts and which
  make it raise, and the stripping before a schema is sent.
- **Routing, clustering, summaries** (`Routing`, `Clustering`, `Summary`, `SummaryMeaning`, `Sorting`).

Text functions of Python (`str`, `html.escape`, `upper`, `lower`), rounding, the similarity of two embeddings, random
draws, clocks, generated keys and every answer of an outside service are parameters.

## Where the code and its own words differ

The model follows the code; each of these is a lemma.

- `reports/template.py` says that validator and renderer can never disagree about a reference (lines 17-18). For an
  accepted template and data of the promised shape they agree if and only if every rendered reference is undisturbed:
  the section that binds it gave the renderer its context (an inverted section gives none), and no section inside that
  one gives the renderer a context of the same name (a section over a plain object does, unseen by the validator).
  `AgreesExactlyWhen` says so for all data, `TemplateAgreesExactlyWhen` for every report; the same condition read off
  the template alone is enough for every report (`AcceptedTemplateFitsEveryReport`). Where it fails, nothing is found
  (`InvertedObjectListDisagrees`, `InvertedItemsDisagree`), an outer context answers, possibly with another kind
  (`InvertedInsideListRebinds`, `InvertedObjectionsRebind`), or the object's own field does (`ObjectSectionCaptures`).
  `{{^list}}note{{/list}}` always agrees (`InvertedNoteAgrees`).
- The same file documents close tags as `{{/}}` (lines 12-13). Such a tag closes a section if and only if the
  section's own name is empty (`AnonymousClose`), which is possible only below dynamic data (`EmptyNameIsDynamic`).
- `ratelimit/caps.py` says that the two stores match exactly (line 61). With a negative cap and no row yet they report
  different `used` values; decisions and counters always match (`StoresAgreeExactlyWhen`).
- `checklists/service.py` describes the edit of a used checklist as publishing the family's next version. Editing a
  superseded version that a report uses makes a second row of an existing version instead (`BadEditClashes`), which
  three ordinary operations and one more edit reach from empty tables (`BadEditIsReachable`); `EditKeepsOrderIff` says
  exactly which edits keep the order.
- `judge/schema_validate.py` promises its own error for every schema it rejects. It raises a `TypeError` instead if
  and only if the stage is known, the top level is an object with properties, and the first dictionary at fault, read
  in order, declares an object or an array among its types (`ValidateCrashesExactlyWhen`). The dictionary of
  properties is read like any other, so every accepted schema gets there by declaring one more property named `type`
  (`PropertyNamedTypeCrashes`); `SmallestCrash` is a complete one.
- `judge/scope.py` says that ranks never tie, because the unique index allows one row in use per scope (lines 41-42).
  Two rows of one folder saved with different portfolios do tie (`TwoHomesClash`), and the order of the rows decides
  between them; that happens if and only if the call's folder has two rows in use (`WinnerIsUniqueExactlyWhen`).

## Model

| member | source | states |
|---|---|---|
| TemplateSyntax.TreeIsUnique | backend/app/reports/template.py:93-115 | a token stream spells at most one section tree, although the program never builds one |
| TemplateSyntax.FlattenIsPrefixFree | backend/app/reports/template.py:206-259 | a balanced stretch that ends at the end or at a close tag can be read off a stream in only one way |
| TemplateValidator.ValidateTemplate | backend/app/reports/template.py:142-178 | the two-stack pass accepts exactly the streams that spell a tree in which every reference resolves where it stands, and otherwise reports the first error of the scan; for one tag, and for a section with one tag in it, the error is said from the fields alone |
| TemplateValidator.DottedResolve | backend/app/reports/template.py:119-139 | a reference a.b resolves exactly to field b of the object a, to anything below dynamic data, and to nothing otherwise |
| TemplateValidator.AcceptsExactlyCheckedTrees | backend/app/reports/template.py:142-178 | accepted if and only if some balanced tree with every name resolvable spells the stream |
| TemplateValidator.UnclosedIsCompletable | backend/app/reports/template.py:172-178 | a template rejected as unclosed is a prefix of an acceptable one: closing its open sections, innermost (the reported one) first, completes it |
| TemplateValidator.OtherErrorsAreFinal | backend/app/reports/template.py:153-176 | every other rejection stands whatever is appended |
| TemplateValidator.AnonymousClose | backend/app/reports/template.py:12-13 | a section whose end is written with a nameless close tag, as the documentation writes it, is accepted if and only if its own name is empty, and otherwise is the error of that tag |
| TemplateValidator.EmptyNameIsDynamic | backend/app/reports/template.py:119-139 | a section can have an empty name only below dynamic data |
| TemplateRenderer.Run | backend/app/reports/template.py:206-246 | on every token stream, balanced or not, rendering a block terminates with the cursor between where it started and the end |
| TemplateRenderer.Skip | backend/app/reports/template.py:248-259 | skipping terminates on every stream with the cursor in bounds |
| TemplateRenderer.SkipCrossesForest | backend/app/reports/template.py:248-259 | counting only tags of the same name is enough: a balanced stretch leaves the depth unchanged, so the skip ends just after the matching close tag |
| TemplateRenderer.PassesCrossBody | backend/app/reports/template.py:220-242 | a section body ends just after its own close tag whatever the context, rendered any number of times or skipped |
| TemplateRenderer.RunCrossesForest | backend/app/reports/template.py:206-246 | over a balanced stretch the cursor machine writes the recursive meaning of its tree, whatever the contexts and whatever follows |
| TemplateRenderer.RunIsMeaning | backend/app/reports/template.py:201-261 | on a whole template the machine returns the meaning of the tree and consumes every token |
| TemplateRenderer.Renderer.RenderBlock | backend/app/reports/template.py:206-246 | the loop over the shared cursor, on any stream, writes and leaves the cursor as the specification of a block says |
| TemplateRenderer.Renderer.RenderSection | backend/app/reports/template.py:220-242 | one open tag: list, truthy, falsy and inverted cases render or skip the body as the passes over it say |
| TemplateRenderer.Renderer.RenderItems | backend/app/reports/template.py:227-232 | rewinding to the section start for every item renders one pass per item, and the last pass decides the cursor |
| TemplateRenderer.Renderer.SkipBlock | backend/app/reports/template.py:248-259 | the skip loop leaves the cursor where the depth count says |
| TemplateOutput.RenderTemplate | backend/app/reports/template.py:201-261 | the output is the meaning of the tree that the template spells; said from the data alone, one tag writes its value escaped, or as it is for a triple tag, or nothing when it is missing or None, and a section with one tag writes that tag per list item in order, or once, or not at all |
| TemplateOutput.ValidateAndRender | backend/app/reports/service.py:133-142 | a template is rendered exactly when it spells a checked tree, and then as the meaning of that tree, with the same said of tags and sections from the data alone |
| TemplateOutput.OutputsAppend | backend/app/reports/template.py:203-246 | two balanced templates after one another render as their outputs after one another |
| TemplateOutput.SectionsMergeScopes | backend/app/reports/template.py:182-192 | whatever sections are open, a body of names renders as it would in one dictionary, the inner fields laid over the outer ones |
| TemplateOutput.ListSectionRenders | backend/app/reports/template.py:220-233 | a section over a list of dictionaries is its body once per item, in list order, with the item's fields laid over the outer ones |
| TemplateOutput.DottedNameRenders | backend/app/reports/template.py:182-192 | `{{a.b}}` writes field b of the dictionary a, escaped, or nothing when there is none |
| TemplateAgreement.ResolvedIsFound | backend/app/reports/template.py:119-139 | a name the validator resolves is found by the lookup with a value of the resolved kind, in contexts that fit the schemas |
| TemplateAgreement.BindingIff | backend/app/reports/template.py:119-139 | a resolved name is bound by the renderer in the section the validator bound it in, with a value of that kind, if and only if that section gave the renderer its context and no section inside it gives the renderer that name |
| TemplateAgreement.AgreesIff | backend/app/reports/template.py:201-246 | on data of the promised shape validator and renderer agree at every step of every pass over every section body exactly when every reference in a rendered body is undisturbed |
| TemplateAgreement.AgreesExactlyWhen | backend/app/reports/template.py:17-18 | "they can never disagree about what a reference means", with the validator's own contexts: for an accepted template and data of the promised shape it holds if and only if every rendered reference is undisturbed |
| TemplateAgreement.UndisturbedTemplateAgrees | backend/app/reports/template.py:142-261 | the template-only form: an accepted template undisturbed everywhere agrees on all data of the promised shape |
| TemplateAgreement.OnlyInvertedDisturb | backend/app/reports/template.py:163-171 | without sections over plain objects a name is disturbed exactly when the validator binds it to the context of an inverted section |
| TemplateAgreement.AcceptedPlainAgrees | backend/app/reports/template.py:142-261 | without inverted sections over object lists and sections over plain objects, accepted is enough |
| TemplateAgreement.InvertedNoteAgrees | backend/app/reports/template.py:13-13 | the documented use of an inverted section, a note for an empty list, is accepted and always agrees |
| TemplateDisagreement.SimpleNameFoundIff | backend/app/reports/template.py:182-192 | a name without dots is found exactly when it resolves against the contexts the renderer really has |
| TemplateDisagreement.InvertedObjectListDisagrees | backend/app/reports/template.py:163-171 | for any list of objects, an inverted section naming a field only the items have is accepted, and when the list is empty the renderer finds nothing |
| TemplateDisagreement.InvertedInsideListRebinds | backend/app/reports/template.py:237-242 | inside another list whose items share the field name, the accepted reference renders the outer item's field instead, whatever kind that has |
| TemplateDisagreement.ObjectSectionCaptures | backend/app/reports/template.py:163-171 | in a section over a plain object, a name the object shares with the outer context means the outer one to the validator and the object's to the renderer |
| ReportContext.ContextHasDictionaryShape | backend/app/reports/template.py:289-359 | whatever the report, the context has exactly the dictionary's fields, each of its kind, at every depth |
| ReportContext.ItemEntries | backend/app/reports/template.py:330-348 | every item dictionary has the item fields in order, each of its kind |
| ReportContext.HeaderEntries | backend/app/reports/template.py:310-319 | the report-level fields and the section verdicts have their dictionary kinds |
| ReportContext.NarrativeEntries | backend/app/reports/template.py:320-327 | the narrative fields and the four "has" flags have their dictionary kinds |
| ReportValues.ContextIsTold | backend/app/reports/template.py:265-359 | the value of every field of the context: a section verdict is FAIL exactly when a graded item of it failed, each flag says whether its text is there, and the items, objections and conversation turns are the report's, in order, field by field |
| ReportContext.TemplateAgreesExactlyWhen | backend/app/reports/template.py:54-81 | end to end for every report: an accepted template and that report's data agree at every step if and only if every reference rendered for it is undisturbed |
| ReportContext.AcceptedTemplateFitsEveryReport | backend/app/reports/template.py:54-81 | an accepted template that is undisturbed everywhere means the same to validator and renderer on every report |
| ReportContext.InvertedItemsDisagree | backend/app/reports/template.py:237-242 | in the report's own dictionary, the template `{{^items}}{{answer_display}}{{/items}}` is accepted and finds nothing for a report without items |
| ReportContext.InvertedObjectionsRebind | backend/app/reports/template.py:237-242 | `{{#items}}{{^objections}}{{text}}{{/objections}}{{/items}}` is accepted and, on a report with items and no objections, renders the item's text |
| JobQueue.DueInOrder | backend/app/orchestration/queue.py:33-54 | a claim takes at most the batch, only due claimable rows that no other claim holds |
| JobQueue.OldestFirst | backend/app/orchestration/queue.py:41-43 | no due row is passed over for a younger one: a due row left out is younger than a full batch |
| JobQueue.JobTable.Claim | backend/app/orchestration/queue.py:57-111 | exactly the chosen rows are leased, with the lease ending at now plus its length, nothing else changes, the snapshots are the rows as they were, and every row taken was free, due and claimable |
| JobQueue.JobTable.Enqueue | backend/app/orchestration/queue.py:276-302 | one new PENDING_TRANSCRIPTION row, due at once, with no attempts spent |
| JobQueue.OutcomesFreeTheRow | backend/app/orchestration/queue.py:114-188 | whichever of the six outcome statements is applied, only that row changes, to the row written out field by field: it is free, stamped and the same job, due again by its state and next attempt alone, and fails only along the transition graph |
| JobQueue.JobTable.AdvanceToJudgeByTranscript | backend/app/orchestration/queue.py:230-254 | every parked row with that transcript, and no other, becomes PENDING_JUDGE due now; the result says whether there was one |
| JobQueue.JobTable.FailByTranscript | backend/app/orchestration/queue.py:199-220 | every parked row with that transcript, and no other, becomes FAILED; the result says whether there was one |
| JobQueue.JobTable.FindOverdueAwaiting | backend/app/orchestration/queue.py:257-273 | exactly the parked rows not updated within the window, each once, with its transcript id |
| JobProtocol.WebhookSettles | backend/app/orchestration/queue.py:199-254 | after a webhook every row parked on that transcript is due for judging, or FAILED if the provider failed it, no other row changes, and a repeated webhook changes nothing |
| JobEngine.Engine.HandleTranscription | backend/app/orchestration/handlers.py:125-167 | re-park, missing recording, deferral, submission and submission error, with the reservation taken only on the submitting path |
| JobEngine.Engine.HandleJudge | backend/app/orchestration/handlers.py:217-290 | the branches of the preamble, the redaction gate, the option and the judge pass, fatal or not, without touching the usage counters |
| JobEngine.OnlyRedactedIsJudged | backend/app/orchestration/handlers.py:218-234 | with redaction on, a job whose transcript is not stored yet completes only on one the provider marked redacted, and an unredacted one is fatal |
| JobEngine.Engine.ProcessOne | backend/app/orchestration/engine.py:107-153 | one transaction: a rejected transition changes nothing, a row deleted meanwhile is not written, a failure rolls its reservation back.  Said of the claim and the answers alone: a judging step ends DONE if and only if the transcript is at hand (and redacted where wanted) and the option needs no judging or the pass worked, with no error row; a submitting step parks, or is put off to the next UTC day, exactly when; every other step leaves one more error row and attempt, FAILED exactly if nothing helps or the attempts are spent, else the same state due after the ladder's jittered delay; no other row changes and the counter grows exactly by a paid submission |
| JobEngine.Engine.ApplyOutcome | backend/app/orchestration/engine.py:156-174 | an outcome is written if and only if the claimed state allows the transition: parking from PENDING_TRANSCRIPTION, completing from PENDING_JUDGE, deferring always; a deferral keeps the state until the next UTC midnight |
| JobEngine.Engine.ApplyFailure | backend/app/orchestration/engine.py:177-229 | one error row per failure, fatal exactly on a dead letter, and the row retried or dead-lettered as the policy decides; without the row there is nothing to refer to and nothing is stored |
| JobEngine.Engine.RunOnce | backend/app/orchestration/reconciler.py:41-64 | the sweep polls each overdue row once and writes what its answer says; the count is of rows moved on |
| JobEngine.Engine.SweepOne | backend/app/orchestration/reconciler.py:47-63 | one overdue row: advanced, failed, touched, or failed for lack of a transcript id, with every row afterwards said from its row before and the poll alone |
| JobEngine.RetriedExactlyWhen | backend/app/orchestration/retry.py:37-64 | a failed step is retried if and only if the error is not fatal and an attempt is left, after at most the longest backoff |
| JobProtocol.NextKeepsInv | backend/app/orchestration/engine.py:107-174 | every step of every worker, webhook, reconciler, crash or clock keeps the protocol invariant (rows, leases, snapshots, transcripts, sweeps, error counts, usage) |
| JobProtocol.CommitRow | backend/app/orchestration/engine.py:156-174 | with a live lease the claimed snapshot is the row, so legality judged on the snapshot is legality in the table |
| JobProtocol.LeaseKeepsClaims | backend/app/orchestration/queue.py:36-50 | leasing a due row never disturbs a live claim |
| JobProtocol.SweepWrites | backend/app/orchestration/reconciler.py:47-63 | the branch for a parked row without transcript id is dead, and failing a row by id alone only hits a parked or failed row |
| JobProtocol.PaymentKeepsUsage | backend/app/ratelimit/caps.py:56-87 | a reservation is committed together with the parking it paid for, and the counters stay exact and within the cap |
| JobRuns.EveryStepIsLegal | backend/app/orchestration/states.py:28-51 | in every state of every run, each committed change of a row is one the transition table allows and loses no progress |
| JobRuns.EdgesAreOneStage | backend/app/orchestration/states.py:28-51 | the graph has exactly the edges to the very next stage, and to FAILED from every unfinished one |
| JobRuns.TerminalIsForever | backend/app/orchestration/states.py:24-34 | over every run DONE and FAILED are absorbing, attempts included |
| JobRuns.MovesOfOneJob | backend/app/orchestration/retry.py:37-64 | in any run after it is enqueued, a job sees at most max_attempts + 2 committed retries and state changes |
| JobRuns.MovesAreBounded | backend/app/orchestration/retry.py:37-64 | from any reachable state, the moves still to come are bounded by the stages and attempts left |
| JobRuns.AdvancedAtMostOnce | backend/app/orchestration/queue.py:230-254 | any number of repeated, early or lost webhooks and sweeps move a job to PENDING_JUDGE at most once |
| JobRuns.SweepRecovers | backend/app/orchestration/reconciler.py:53-58 | after an overdue row is selected, whatever happens before its poll answers ready, that write leaves the job past waiting, and due for judging if it still waited |
| JobRuns.SweepEffect | backend/app/orchestration/reconciler.py:47-64 | the whole sweep moves each overdue row as its poll says, touches no other row, and counts the ready ones |
| JobRuns.NoStrandedJob | backend/app/worker/loop.py:49-80 | in every reachable state a lease is held only in a claimable state, a parked row has a transcript id, and every unfinished row becomes claimable or overdue within a fixed bound |
| JobRuns.LiveClaimsAreExclusive | backend/app/orchestration/queue.py:33-54 | in every reachable state at most one worker with a live lease holds a job, and its snapshot is what the row says |
| JobRuns.AttemptsAreAccounted | backend/app/orchestration/engine.py:177-196 | in every reachable state the recorded errors of a job equal its attempts, never exceed the maximum, and a job that spent them all is finished |
| JobRuns.DailyCapIsConserved | backend/app/ratelimit/caps.py:56-87 | in every reachable state the counter of each portfolio and day is the number of submissions committed against it and never exceeds the cap |
| JobRuns.LateCommitUndoesDone | backend/app/orchestration/queue.py:114-123 | the lease assumption is needed: from any state with a due PENDING_JUDGE row there is a run after which a worker past its lease would turn DONE into FAILED |
| JobRefinement.BatchIsARunOfClaims | backend/app/orchestration/queue.py:33-54 | claiming a batch is a run of single-row claims |
| JobRefinement.ClaimBatch | backend/app/worker/loop.py:25-33 | the worker's claim takes protocol steps: the table ends as the run of claims leaves it |
| JobRefinement.Process | backend/app/worker/loop.py:36-38 | processing a claimed job is the commit step of its ticket: same rows, same counters, and for every job as many error rows as the protocol counts |
| JobRefinement.Reconcile | backend/app/orchestration/reconciler.py:41-64 | one sweep is a run of selections and polls carrying the provider's error texts, the table ends as that run leaves it, and the count returned is the number of transcripts found ready |
| JobRefinement.PollsAreARun | backend/app/orchestration/reconciler.py:47-64 | the polls of distinct selected entries, in order and with truthful answers, are each possible and together do what the loop does |
| DailyCap.PostgresDailyUsageStore.TryIncrement | backend/app/ratelimit/caps.py:56-87 | the guarded UPSERT allows exactly when the counter is below the cap, reports the cap and the counter reached, and adds one to that counter and to no other exactly if it allows |
| DailyCap.InMemoryDailyUsageStore.TryIncrement | backend/app/ratelimit/caps.py:96-103 | the dictionary allows exactly when the counter is below the cap, and adds one to that counter and to no other exactly then |
| DailyCap.StoresAgreeExactlyWhen | backend/app/ratelimit/caps.py:57-61 | the two stores always agree on the decision and the counters, and on the whole answer if and only if the row exists or the cap is not negative |
| DailyCap.GrantsFillTheCap | backend/app/ratelimit/caps.py:56-87 | over any interleaving of reservations each counter grows by what was granted, which is what was asked or what the cap still allowed |
| DailyCap.NextUtcMidnight | backend/app/orchestration/engine.py:91-93 | strictly later, at most a day away, the first moment of the next UTC day |
| DailyCap.DaysAreUtcDays | backend/app/orchestration/engine.py:91-93 | a day is 86400 seconds counted from the epoch, and the next midnight is at most that far away |
| DailyCap.DaysForIsCeiling | backend/app/orchestration/engine.py:169-173 | the days a backlog of n takes under a cap are the ceiling of n / cap: so many suffice and one fewer does not |
| JobDrain.BacklogDrains | backend/app/orchestration/engine.py:156-174 | from any state that keeps the invariant, with n due jobs and a free cap, a run of claims, commits and waits for the next UTC midnight submits all of them and changes no other job, the last on day ceil(n / cap) |
| JobDrain.DaysAreNeeded | backend/app/ratelimit/caps.py:56-87 | in any run at all, the jobs paid for within w days are at most w caps |
| Backoff.RawDelayDoubles | backend/app/ratelimit/backoff.py:48-65 | the ladder starts at the base and doubles at every attempt up to the cap |
| Backoff.BackoffBounds | backend/app/ratelimit/backoff.py:48-68 | a delay is within the jitter ratio of the raw one, never negative, and at most (1 + j) times the cap |
| Backoff.JitterSpansTheRatio | backend/app/ratelimit/backoff.py:48-68 | the jitter takes its whole ratio: a draw of 1 lengthens the delay by it, 0 shortens it by as much down to nothing, and one half leaves it alone |
| Backoff.RetryAsync | backend/app/ratelimit/backoff.py:74-111 | between 1 and max(1, m) calls, all but the last failing retryably, stopping at the first success or fatal error; the sleep after each failed call is exactly its Retry-After if it gave one, else within the jitter ratio of the raw delay of that attempt, and they add up to the time slept; if every failed call gave a Retry-After, exactly those are slept |
| Backoff.RetryWaitBound | backend/app/ratelimit/backoff.py:74-111 | without Retry-After the waits total at most (1 + j) * min((m - 1) * cap, base * (2^(m-1) - 1)) |
| TokenBucket.RefillTwice | backend/app/ratelimit/buckets.py:58-62 | looking in between changes nothing: refilling at s and then at t is refilling at t |
| TokenBucket.GrantedFromBudget | backend/app/ratelimit/buckets.py:64-76 | over any interleaving of acquirers the level stays in [0, capacity] and no token is granted that was not there or earned |
| TokenBucket.WindowBound | backend/app/ratelimit/buckets.py:64-76 | at most capacity + rate * (t - s) tokens are granted between two times, whatever came before |
| TokenBucket.TwiceRpmInAnyMinute | backend/app/ratelimit/buckets.py:99-99 | at most twice the configured requests in any sixty seconds |
| TokenBucket.TwiceRpmIsReached | backend/app/ratelimit/buckets.py:99-99 | that bound is exact |
| TokenBucket.TokenBucket.Create | backend/app/ratelimit/buckets.py:40-56 | no bucket without a positive rate; otherwise a full one |
| TokenBucket.TokenBucket.RefillTo | backend/app/ratelimit/buckets.py:58-62 | the refill in place; a clock that has not moved on changes nothing |
| TokenBucket.TokenBucket.Acquire | backend/app/ratelimit/buckets.py:64-76 | with any attempts of others during its sleeps, the loop is refused until the tokens are there and then takes them, and sleeps at most once more than others interfere |
| TokenBucket.WaitIsAnInterleaving | backend/app/ratelimit/buckets.py:64-76 | such a wait is one interleaving of attempts, in which the waiting coroutine is granted its tokens once |
| Checklists.SavedOrderIsReadBack | backend/app/checklists/service.py:23-45 | after adding items, reading them gives the list in the order it was sent, with its contents |
| Checklists.SavesAreReadBack | backend/app/checklists/service.py:23-130 | after any save (default, new family, edit in place, new version) the items of the row returned read back as the list sent, in order and with its contents, and only as that; the row carries the sent name and settings, an edited version that was used is archived, and no other row, report or item of another checklist changes |
| Checklists.FamiliesAreTouchedWhole | backend/app/checklists/service.py:148-168 | renaming and deleting touch every version of the family and no other row; a default is not deleted |
| Checklists.JudgedReport | backend/app/judge/service.py:52-70 | a judged call has one report, with one item per item of its checklist, which is the requested one if that is the portfolio's, else the newest active default; other calls keep their reports |
| Checklists.PurgedCall | backend/app/api/calls.py:246-275 | a purge takes the call's reports with their items and nothing else |
| Checklists.ListingIsUnique | backend/app/checklists/service.py:188-197 | sort order with the key as tiebreaker gives one answer |
| Checklists.StepKeepsHistory | backend/app/judge/service.py:254-289 | any one operation keeps all keys pointing at rows and leaves every remaining report its checklist's rows |
| Checklists.HistoryIsImmutable | backend/app/checklists/service.py:94-130 | over every run of create, edit, rename, delete, judge and purge no report item dangles and what a report was judged against stays |
| Checklists.ReportReadsTheSameItems | backend/app/checklists/service.py:188-197 | as long as a report exists, its checklist's items read back the same, in the same order |
| ChecklistVersions.DefaultIsUnique | backend/app/checklists/service.py:171-185 | the active default of a portfolio is exactly the newest version of its default family |
| ChecklistVersions.EditKeepsOrderIff | backend/app/checklists/service.py:94-130 | an edit keeps versions 1..n with only the newest active if and only if it addresses an active version, an unused one, or the only version of a deleted family |
| ChecklistVersions.BadEditClashes | backend/app/checklists/service.py:115-130 | any other edit leaves two rows of one version, or a deleted row beside the new active one |
| ChecklistVersions.BadEditIsReachable | backend/app/checklists/service.py:94-130 | creating, judging and editing, from empty tables and in good order, leaves a used archived version whose next edit makes a second active version 2 |
| ChecklistVersions.DeleteKeepsOrder | backend/app/checklists/service.py:160-168 | deleting a family, or refusing to delete the default, keeps the order and the defaults |
| ChecklistVersions.CreateKeepsOrder | backend/app/checklists/service.py:48-86 | new families, and the default of a new portfolio, keep the order and the defaults |
| ChecklistVersions.RunKeepsOrder | backend/app/checklists/service.py:94-168 | over every run whose edits address active or unused versions, families stay 1..n with the newest active |
| ChecklistVersions.EveryPortfolioHasItsDefault | backend/app/checklists/service.py:171-185 | from empty tables, every portfolio always has exactly one active default |
| ChecklistVersions.EveryCallResolves | backend/app/judge/service.py:52-68 | so every call of the portfolio is judged against exactly one checklist, whatever it asks for: the one requested if it is the portfolio's, else the active default |
| ChecklistStore.Store.AddItems | backend/app/checklists/service.py:23-45 | one row per item, ordered by position alone, every other row kept |
| ChecklistStore.Store.CreateDefaultChecklist | backend/app/checklists/service.py:48-62 | the tables take the step that creates a portfolio's default, and its items are the list sent, in order |
| ChecklistStore.Store.CreateChecklist | backend/app/checklists/service.py:65-86 | the tables take the step that creates a family, and its items are the list sent, in order |
| ChecklistStore.Store.UpdateChecklist | backend/app/checklists/service.py:94-130 | in place if no report uses it, else a new version with the old one archived; the row returned carries the sent name, the sent or old setting, and exactly the items sent, in order, and every other checklist's items stay |
| ChecklistStore.Store.RenameChecklist | backend/app/checklists/service.py:148-157 | every version of the family is renamed, nothing else changes |
| ChecklistStore.Store.DeleteChecklist | backend/app/api/checklists.py:155-166 | refused exactly for a default, else every row of the family and no other is marked deleted, its contents kept |
| ChecklistStore.Store.RebuildReport | backend/app/judge/service.py:254-289 | the call's old report goes with its items, and the new one has one item per item of its checklist |
| Scope.ResolveScoped | backend/app/judge/scope.py:36-50 | the loop returns the first row of the highest rank, or none exactly when no row applies |
| Scope.WinsByRank | backend/app/judge/scope.py:28-33 | the search for the highest rank is the lookup folder, else portfolio, else global |
| Scope.WinnerIsUniqueExactlyWhen | backend/app/judge/scope.py:36-50 | with at most one row in use per scope, the winner does not depend on the order of the rows if and only if the call's folder has at most one row in use |
| Scope.TwoHomesClash | backend/app/judge/scope.py:41-42 | saving and activating two rows of one folder under different portfolios keeps one row in use per scope, and both win the folder's calls |
| Scope.HomedIsEnough | backend/app/api/prompts.py:75-93 | rows saved with their folder's own portfolio meet that condition at every call |
| Scope.LoadActive | backend/app/judge/prompt_store.py:36-52 | whatever order the query returns, the chosen row is that winner |
| Scope.PromptTable.Create | backend/app/api/prompts.py:75-93 | a new row is not in use, and at most one row per scope stays in use |
| Scope.PromptTable.Activate | backend/app/api/prompts.py:132-167 | exactly the chosen row of its scope is in use afterwards, or nothing changes because another transaction's row of the scope was missed and is in use (the 409); at most one per scope stays in use |
| Scope.PromptTable.Deactivate | backend/app/api/prompts.py:170-184 | only that row is switched off |
| Scope.PromptTable.Delete | backend/app/api/prompts.py:187-200 | only that row goes |
| Scope.ActivationFrame | backend/app/api/prompts.py:144-153 | activating a row changes the outcome for exactly the calls it applies to that have no more specific row in use |
| Scope.RemovalFrame | backend/app/api/prompts.py:176-200 | switching off or deleting a row changes only the calls it won, and those fall back to a less specific row or none |
| OutputSchema.ValidateOutputSchema | backend/app/judge/schema_validate.py:202-218 | the checks in their order give the verdict of the specification; accepted if and only if the top level is an object with properties, the subset check passes and every required field of the stage is there, named one by one with the types it may declare |
| OutputSchema.AcceptedHasTheCore | backend/app/judge/schema_validate.py:126-155 | what an accepted schema has, field by field: each required property, item property or nested property declares its type, where integer passes for number and an enum for string |
| OutputSchema.FirstUnmetIsNamed | backend/app/judge/schema_validate.py:213-218 | a rejection is for the first path of the contract that leads to no node of its kind: a missing field if it leads nowhere, else a wrong kind |
| OutputSchema.FindNode | backend/app/judge/schema_validate.py:175-188 | walking a path finds the node the specification names, or none |
| OutputSchema.MeetsEveryPath | backend/app/judge/schema_validate.py:213-218 | a contract is met if and only if each of its paths leads to an object node of the required kind |
| OutputSchema.StripCleans | backend/app/judge/gemini.py:174-184 | stripping leaves no stripped keyword at any depth and changes a schema if and only if it has one |
| OutputSchema.StripIsIdempotent | backend/app/judge/gemini.py:174-184 | stripping twice is stripping once |
| OutputSchema.StripCommutesWithPath | backend/app/judge/schema_validate.py:175-188 | on any schema, stripping and following a path commute |
| OutputSchema.StripKeepsKind | backend/app/judge/schema_validate.py:191-199 | stripping changes no kind test |
| OutputSchema.StripKeepsContract | backend/app/judge/schema_validate.py:213-218 | on any schema, what stripping leaves meets a contract, or fails it in the same way, exactly as the schema did |
| OutputSchema.CheckedIsClean | backend/app/judge/schema_validate.py:158-172 | a schema the subset check accepts has nothing to strip, at any depth |
| OutputSchema.AcceptedIsSentAsIs | backend/app/judge/gemini.py:187-195 | an accepted schema is sent unchanged and is still accepted |
| OutputSchema.SentMeetsContract | backend/app/judge/gemini.py:187-195 | whatever is sent meets its stage's contract exactly when the original does |
| SchemaErrors.AcceptedExactlyWhen | backend/app/judge/schema_validate.py:158-172 | accepted if and only if no dictionary at any depth has an unsupported keyword and every declared type is a known one |
| SchemaErrors.CheckIsFirstFault | backend/app/judge/schema_validate.py:158-172 | the recursion reports the first fault in reading order, at whatever depth |
| SchemaErrors.CrashesExactlyWhen | backend/app/judge/schema_validate.py:163-169 | the check raises a TypeError if and only if the first dictionary at fault declares an object or array among its types before any unknown one |
| SchemaErrors.CrashesIfNothingElseIsWrong | backend/app/judge/schema_validate.py:163-169 | with supported keywords and otherwise known types only, it raises if some dictionary at any depth declares an object or array among its types, and accepts if none does |
| SchemaErrors.ValidateCrashesExactlyWhen | backend/app/judge/schema_validate.py:202-218 | the same for the whole upload check, at every stage |
| SchemaErrors.PropertyNamedTypeCrashes | backend/app/judge/schema_validate.py:163-169 | any schema accepted for its stage fails with the TypeError once it declares one more property, named "type" |
| SchemaErrors.SmallestCrash | backend/app/judge/schema_validate.py:202-218 | one complete schema, for every stage, on which the upload check raises it |
| Routing.DecideRouting | backend/app/judge/routing.py:87-148 | the two loops and the breaker compute the routing relation, for any input; with one row per item, each decision is said of that item's last verdict alone: its reason is the first of override, subjective, low confidence, critical FAIL, self-flag, thin evidence that holds, and the fraction and the flag follow from counting those |
| Routing.RoutesAsTold | backend/app/judge/routing.py:65-148 | the routing relation is that description: escalated exactly if a reason holds and, once the breaker has tripped, the item's risk is elevated or critical; the breaker trips exactly above the limit |
| Routing.EveryReasonIsCovered | backend/app/judge/routing.py:111-148 | one decision per item in order; every item with a reason is escalated for it or the call is flagged; a critical FAIL always is; the breaker trips exactly above the limit |
| Routing.RawIsPerItem | backend/app/judge/routing.py:102-112 | the share compared with the limit counts each item with a reason once |
| Clustering.ClusterObjections | backend/app/judge/clustering.py:53-79 | the groups reported split the rows: every follower is embedded and at least the threshold similar to its leader, every embedded row of a later group is below it to each earlier embedded leader, and a row without an embedding starts its own; one cluster per group, telling of its leader, size, cleared rows and first texts, sorted by size |
| Clustering.EachRowOnce | backend/app/judge/clustering.py:55-76 | every objection is in exactly one group, once |
| Clustering.GroupsAreWellLed | backend/app/judge/clustering.py:58-66 | for any closeness: followers are close to their leader, nobody is close to an earlier leader, and rows keep their order |
| Clustering.GroupsAreWellClustered | backend/app/judge/clustering.py:53-66 | the same for the similarity and the threshold themselves, rows with and without embeddings apart |
| Clustering.LeadersAreApart | backend/app/judge/clustering.py:58-66 | two leaders with embeddings are below the threshold of each other, under a symmetric similarity |
| Clustering.ClusterSummarises | backend/app/judge/clustering.py:21-29 | a cluster reports its leader's text and its size, and is never-cleared if and only if none of its rows was cleared |
| Clustering.ExamplesAreFirst | backend/app/judge/clustering.py:63-64 | the examples are the texts of the first three rows |
| Clustering.NothingIsLost | backend/app/judge/clustering.py:53-79 | counts and cleared counts add up to the rows, and bigger clusters come first |
| Summary.ChecklistSummary | backend/app/reports/summary.py:44-144 | the single pass with running dictionaries returns the summary given by per-agent and per-item sums |
| Summary.CardIsConsistent | backend/app/reports/summary.py:85-96 | the failures of a report are exactly its items answered FAIL, the critical ones among them, and it is clean exactly without any |
| SummaryMeaning.CardCounts | backend/app/reports/summary.py:85-96 | a report's passes, failures and critical failures are the numbers of its item rows answered PASS, answered FAIL, and of the failed ones with critical risk |
| Summary.GroupItems | backend/app/reports/summary.py:60-73 | every report gets its own item rows, in order |
| Summary.AddReport | backend/app/reports/summary.py:85-115 | one round of the loop keeps all dictionaries and counters equal to the sums over the reports so far |
| Summary.RecordFailures | backend/app/reports/summary.py:108-111 | the failure dictionaries hold, per item, the set of agents and the number of calls |
| Summary.SumsSplit | backend/app/reports/summary.py:97-103 | sums grouped by key add up to the sum over everything |
| Summary.AgentsAddUp | backend/app/reports/summary.py:117-123 | the agents' calls, passes, failures and critical failures add up to the batch, one row per agent |
| Summary.ItemsAddUp | backend/app/reports/summary.py:124-129 | before the cut, the items' failed calls add up to the agents' failures |
| Summary.FewerAgentsThanCalls | backend/app/reports/summary.py:108-111 | no item is failed by more agents than calls |
| Summary.WorstIsHighest | backend/app/reports/summary.py:104-107 | the running comparison ends at the first report with the highest (critical, fails) of the agent |
| Summary.WorstReportIsNamed | backend/app/reports/summary.py:117-122 | every agent's row names that report |
| Summary.CutKeepsTheTop | backend/app/reports/summary.py:129-131 | a cut list with its rest is the whole list, and nothing cut ranks above anything kept |
| SummaryMeaning.SummaryIsTold | backend/app/reports/summary.py:44-144 | the whole summary said of the rows alone: each total and each agent's column is the number of jobs, reports or item rows it is named after, each listed item counts the calls and agents that failed it, each worst call is a report with its own counts, and every list is ranked and cut as it says |
| Sorting.Sort | backend/app/reports/summary.py:123-131 | sorted, and the same rows |
| Sorting.SortIsStable | backend/app/reports/summary.py:123-131 | rows that compare equal keep their order |
| Sorting.SortKeepsSum | backend/app/reports/summary.py:123-131 | sorting changes no column sum |

## Left out

- The tokenizer's regular expression: token streams are taken as they are.
- HTML escaping, `str` and number formatting are parameters; template values are JSON-like, so other Python objects a context might hold are not modelled.
- The narrative of a report is typed (strings and lists where the code says so); a model output of another shape, which `build_context` would pass through, is not modelled.
- The built-in report renderer, PDF export and storage of the rendered HTML.
- Error messages are constructors carrying the offending name; the `where` path in schema errors and the numbers inside retry, deferral and routing reasons are not modelled.
- Floating point: times, delays, tokens and confidences are reals, and rounding is not modelled; `_cosine` is an abstract similarity.
- The SQL statements are modelled as updates of one row set in one step; row locks appear as the set of rows other claims hold, sessions and NOTIFY not at all.
- In one step the database clock and the application clock agree; a deferral is computed from the same clock as the write.
- The reconciler's selection and each of its writes are separate protocol steps, a finer interleaving than its one transaction.
- Deleting calls with their jobs (retention, the calls route) is not a step of the job protocol; in the checklist model it is `Purge`.
- JobEngine.Engine.HandleJudge: the judge pass itself (agents, uploads, swapping the recording, report writing) is one answer of the outside world, because its steps are calls to services.
- JobEngine.Engine.HandleTranscription: redaction settings and the presigned link are left out, because they only feed the submitting call.
- JobEngine.Engine.ProcessOne: status broadcasts are left out.
- Table rows are values in a map rather than objects, so aliasing between loaded rows is not modelled.
- Generated UUID keys are natural numbers, new at each use.
- TokenBucket.TokenBucket.Acquire: the sleeping clock waits at least as long as asked, and the other coroutines' amounts are not negative; a negative amount, which no caller passes, would lift the level over the capacity.
- TokenBucket.TokenBucket.Create: a capacity below zero is not excluded by the code and makes no bucket the other results speak about; the raised error is a null result.
- The concurrency and token budget of `ProviderLimiter.guard`, and `classify_http_status`.
- The items of the shipped default checklist, answer options, CSV export, pagination and checklist parsing.
- Concurrent edits inside one API transaction: the code does not serialise them and no bound is claimed there.
- Scope.PromptTable.Activate: what a concurrent transaction committed is a parameter (the rows the first statement missed).
- OutputSchema.ValidateOutputSchema: JSON objects have each key once, as a parsed document does; the built-in default schemas are left out.
- Routing.DecideRouting: the breaker's sentence and the unused "human" tier are left out.
- Clustering.LeadersAreApart: needs a symmetric similarity, which cosine is.
- Clustering.ClusterObjections: which rows belong to a portfolio is the query's business; rows are taken as loaded.
- Summary.ChecklistSummary: the rows are taken as the four queries return them; the CSV and the feedback HTML summary are left out.
- Authentication, roles, the web frontend, migrations, speech-to-text, model calls and object storage.
