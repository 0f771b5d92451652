# Signara: a Dafny model

Dafny models of the parts of Signara where order, concurrency and failure matter, and proofs of what
they keep. `dafny verify dfyconfig.toml` checks the whole project.

## What is modelled

**The signing workflow.** A request has a mode, a status, a deadline and signers in order, each with a
role and a status; beside it lie placed fields, signature rows, an append-only event log, queued jobs
and emitted webhooks. `SigningModel` gives every service call as a step on all of that, with the
source's branches and errors in the source's order. `SigningRuns` lets any calls follow each other at
any times after a request is created, while its template is edited. `CallEffects`, `CreationEffects` and
`ReminderEffects` say what each call does, of the rows, the log and the jobs alone: who is let through,
who is refused and why, and everything that is different afterwards. `Workflow`, `AuditTrail`,
`TrailOrder`, `TurnOffered`, `StatusReplay`, `Reminders`, `Placements` and `Progress` prove what every
such run keeps.
`SigningService` is the service as a class that updates its fields step by step and searches its rows
with loops; each method is proved to compute its step and to keep the object valid, as gathered in
`RequestInvariant`.
`SigningRace` takes the signing call apart at its awaits, with any number of calls interleaved and any
of them dying; `CompletionLog` says what such a race leaves in the log and the mail queue, and
`RaceRefinement` proves that the two views agree.

**DNS reconciliation.** `Dns` takes the zone as a bag of (type, name, value) and a run as a plan of API
calls of which any prefix may have happened; `DnsClient` is the client object and the host loop, with a
call that may fail at any point.

**Webhook health.** `Webhooks` is the delivery history of every endpoint under registrations,
deliveries, retries, switches and sweeps; `WebhooksService` is the service over mutable rows. The
console's health and the sweep's verdict are written out separately, as in the source; `WebhookEffects`
says what both mean of the rows, and what a row says of the attempts made.

**Refresh tokens.** `Sessions` interleaves the lookup, the conditional revocation and the insertion of
any number of refresh calls with logins and revocations; `AuthService` is the service over its table.

**Smaller parts.** `Reindex` and `ReindexJob`: rebuilding the search index page by page while the table
changes. `AuditExport`: the CSV export and an RFC 4180 reader. `HtmlEscaping`: the five replacements.
`QuoteScanner`: string literals on a line, against a reference automaton.

A "real signer" below is one whose role is not CC.

## Where the code falls short of what a reader may expect

Each of these is proved, with the exact condition.

- A sequential request whose first row is a carbon copy invites nobody who can sign; it moves only if
  the first real signer opens a link that was never sent (`SendingInvitesARealSignerIff`,
  `CarbonCopyFirstStalls`).
- The range check on a template's assignee does not bind the placement when order indexes have gaps;
  such a request completes with a required field empty (`BindingIsTotalIff`,
  `UnboundPlacementCompletesEmpty`).
- A signing call is not a transaction. One that dies after its signature row strands the signer
  (`CanStillSignIff`); the last one, dying before it looks, leaves a fully signed request open
  (`CanStillCompleteIff`); one that dies after closing leaves a completed request whose mail is never
  sent (`CanStillMailIff`). Calls that mark their signers before any of them looks all record the
  completion, though one mail is queued: `CompletionRecordedOnceIff` says exactly when, with
  `CompletionLoggedTwiceMailedOnce` as the witness. So the total in `TrailTotals` is exact for calls
  that do not overlap.
- A name that starts with CNAMEs only is without an address between two calls (`WindowIff`). The
  source's own comment reports this window.
- With a minimum of zero failures the sweep disables endpoints shown as healthy
  (`WithoutMinimumHealthyIsDisabled`). Re-enabling alone does not help an endpoint: the next sweep
  disables it again (`ReenabledIsDisabledAgain`).
- A delivery that got through protects its endpoint only as long as that same delivery is not attempted
  again and fails: then it counts as a failure and no longer as a success (`ProtectedIff`,
  `SuccessProtectsUnlessRetried`; `RetriedSuccessIsForgotten` is the input).
- A refresh that has won survives a logout from everywhere (`LoggedOutRevivesIff`), and one that dies
  there ends the login (`CrashedWinnerEndsTheLogin`).
- Deleting the document at a page boundary makes the rebuild skip a live one (`LeftOutIff`,
  `DeletionHidesALiveDocument`): the cursor skips one row even when that row is no longer its own.
- `inside_spans` at the very end of a line holds only after a dangling backslash, not for every open
  literal (`InsideAtTheEnd`).

## Model

| member | source | states |
|---|---|---|
| Workflow.SequentialFrontier | apps/api/src/modules/signatures/signatures.service.ts:1230-1292 | in every reachable state of a sequential request, a real signer that has left PENDING has only signed real signers before it, and behind an unsigned one all are PENDING |
| Workflow.SequentialHandoverIsNeverAmbiguous | apps/api/src/modules/signatures/signatures.service.ts:903-937 | so at most one real signer waits at a time, and a handover that names nobody never asks for a signer id in sequential mode |
| Workflow.CompletionIsExact | apps/api/src/modules/signatures/signatures.service.ts:1253-1277 | on every run a request is COMPLETED if and only if it has a real signer and all of them have signed |
| Workflow.OutcomesAreFinal | apps/api/src/modules/signatures/signatures.service.ts:547-642 | over every continuation: COMPLETED and CANCELLED are never left, EXPIRED only for CANCELLED, and a signer that signed or declined stays so |
| Workflow.DeclineIsDecisive | apps/api/src/modules/signatures/signatures.service.ts:547-593 | after a real signer declines no continuation completes the request, and in sequential mode nobody behind that signer ever leaves PENDING |
| Workflow.ServeMoves | apps/api/src/modules/signatures/signatures.service.ts:307-783 | every call moves the request and each signer only along the edges of the two status graphs and changes no role, order, mode, deadline or email |
| Workflow.TurnIsPrefix | apps/api/src/modules/signatures/signatures.service.ts:1230-1251 | with rows in order, the turn check (a search over lower order indexes) means: every real signer at an earlier position has signed |
| Workflow.SortSorts | apps/api/src/modules/signatures/signatures.service.ts:144-146 | the rows of a new request are a rearrangement of the given signers in ascending order index |
| Workflow.CreatedRows | apps/api/src/modules/signatures/signatures.service.ts:176-212 | a new request awaits signatures, has one row per given signer in strictly ascending order, the first invited and, in sequential mode, the rest pending |
| CreationEffects.CreatedAsAsked | apps/api/src/modules/signatures/signatures.service.ts:144-212 | the request stored is the one asked for: its deadline and mode are those given (sequential by default), and rows and given signers match one to one by email, role and order index, with the defaults of role and position; the fields are those of the template; nothing is signed |
| CreationEffects.SendsAsAsked | apps/api/src/modules/signatures/signatures.service.ts:231-242 | invitations are queued, if they are to be sent, to exactly the rows that are invited, in order, and the subscribers told unless that cannot be queued |
| CreationEffects.CreatedIff | apps/api/src/modules/signatures/signatures.service.ts:134-174 | a request is created if and only if the document is there and not completed, one to fifty signers share no email and no order index, no rule target is given, and no template field is out of range or an attachment; otherwise the refusal is the first that applies |
| StatusReplay.StatusIsTheReplay | apps/api/src/modules/signatures/signatures.service.ts:586-642 | on every run the status is what replaying the trail gives: COMPLETED, CANCELLED or EXPIRED after the entries that say so, IN_PROGRESS after a decline in sequential mode, and nothing else changes it |
| CallEffects.SigningHandsOn | apps/api/src/modules/signatures/signatures.service.ts:1279-1290 | on every run, an accepted signature in a sequential request with a pending real signer left invites exactly the first of them, queues exactly one invitation, and changes no other row but the signer's own |
| TurnOffered.NextSignerIsInvited | apps/api/src/modules/signatures/signatures.service.ts:1279-1290 | on every run of a sequential request, once somebody has signed, the first real signer that has not is INVITED or VIEWED unless it declined, and an invitation to it has been queued |
| CallEffects.Signing | apps/api/src/modules/signatures/signatures.service.ts:485-545 | what an accepted signature leaves, without the step itself: the row signed, each own field holding the last value submitted for it and no other field changed, and the request completed with its log entry and mail exactly when every other real signer had signed |
| CallEffects.SigningRefused | apps/api/src/modules/signatures/signatures.service.ts:422-500 | a signature is refused for the first of the listed reasons that applies, said of the rows and the values submitted; only one that comes after the deadline changes anything, and then the request expires |
| CallEffects.HandoverIsToTheSignerMeant | apps/api/src/modules/signatures/signatures.service.ts:920-962 | on every run, a handover in time goes to the signer named, or to the one real signer that waits: that row alone is marked and one entry names it; and each refusal comes exactly when stated |
| CallEffects.HandoverToNobody | apps/api/src/modules/signatures/signatures.service.ts:926-937 | when nobody is meant nothing changes, and the refusal says why: the one named is not a real signer here, nobody waits, or several do |
| SigningRace.NoLostCompletion | apps/api/src/modules/signatures/signatures.service.ts:485-539 | for every interleaving of signing calls on a parallel request, some of which may die: once every real signer has a finished call the request is COMPLETED, each real signer has exactly one signature row and exactly one completion mail is queued |
| SigningRace.CanStillSignIff | apps/api/src/modules/signatures/signatures.service.ts:485-516 | an open signer can still come to be signed if and only if no call died between inserting its signature row and marking it |
| SigningRace.StrandedNeverCompletes | apps/api/src/modules/signatures/signatures.service.ts:485-516 | a signer left that way keeps the request from ever completing |
| SigningRace.CanStillCompleteIff | apps/api/src/modules/signatures/signatures.service.ts:1253-1277 | once all have signed, an uncompleted request can still complete if and only if a call that has yet to look is alive |
| CompletionLog.CompletionRecordedOnceIff | apps/api/src/modules/signatures/signatures.service.ts:1260-1277 | for every interleaving, dying calls included: the completion is recorded as often as calls stood between their mark and their completion entry when the last real signer was marked, less those that never got on; so when all of them did, exactly once if and only if there was exactly one |
| CompletionLog.RunConserves | apps/api/src/modules/signatures/signatures.service.ts:1253-1277 | once all have signed, completion entries plus calls that will still write one stay the same over every continuation |
| SigningRace.CompletionLoggedTwiceMailedOnce | apps/api/src/modules/signatures/signatures.service.ts:1260-1277 | the witness that there can be two: an interleaving in which both calls record the completion while its stable job id keeps the mail to one |
| CompletionLog.CanStillMailIff | apps/api/src/modules/signatures/signatures.service.ts:1502-1508 | a completed request whose mail is not queued can still get it if and only if a call that has yet to look, to close or to mail is alive |
| RaceRefinement.ReachableIsAtRest | apps/api/src/modules/signatures/signatures.service.ts:402-440 | every reachable active parallel request with a real signer is a state such a race may start from, with no completion recorded yet |
| RaceRefinement.AloneIsSign | apps/api/src/modules/signatures/signatures.service.ts:402-545 | the interleaved steps of one accepted call with no rival add up to the workflow's signing step: same rows, statuses, log entries and jobs |
| RaceRefinement.AdmittedAlike | apps/api/src/modules/signatures/signatures.service.ts:402-440 | the check a call passes in the race is the workflow's: it passes if and only if some signing call of that signer would be accepted now |
| Progress.CanAlwaysFinish | apps/api/src/modules/signatures/signatures.service.ts:346-365 | from every reachable active state before its deadline with a real signer and none declined, opening and signing in order completes the request in at most two calls per unsigned signer |
| Progress.RunsChangeLittle | apps/api/src/modules/signatures/signatures.service.ts:307-783 | any run changes the statuses of signers at most three times per signer |
| Progress.SessionVerdictIsSigningVerdict | apps/api/src/modules/signatures/signatures.service.ts:307-399 | in every reachable state, a session reports that it allows signing if and only if a signing call with the required values, made next, succeeds |
| Progress.HandedOverLinkMaySign | apps/api/src/modules/signatures/signatures.service.ts:903-972 | after a successful handover the link it gives away opens onto a session that allows signing |
| Progress.SendingInvitesARealSignerIff | apps/api/src/modules/signatures/signatures.service.ts:231-242 | a sequential request that is sent out invites somebody who can sign if and only if its first row is not a carbon copy |
| Progress.CarbonCopyFirstStalls | apps/api/src/modules/signatures/signatures.service.ts:1279-1290 | with a carbon copy first, until the first real signer opens a link it was never sent: every real signer stays PENDING, nobody but carbon copies is mailed and nobody signs |
| AuditTrail.TrailMatchesRows | apps/api/src/modules/signatures/signatures.service.ts:1302-1328 | per signer, on every run: signed events, signature rows and the signed status agree, declined events and the declined status agree, at most one viewed event, and reminder events equal the reminder counter |
| AuditTrail.TrailTotals | apps/api/src/modules/signatures/signatures.service.ts:526-539 | in total: signature rows = signed signers; signed events exceed them by one exactly when COMPLETED; one completion mail exactly then; declined events = declined signers |
| AuditTrail.InPersonMarkIsEarned | apps/api/src/modules/signatures/signatures.service.ts:900-972 | a signature is marked in person if and only if a handover of that signer's session is earlier in the trail |
| AuditTrail.WebhooksAreTheTrail | apps/api/src/modules/signatures/signatures.service.ts:88-113 | the emitted webhooks, save request.sent, are the trail less the entries that could not be queued, in order, each announced as a written-out relation between kinds of entries and webhooks says (handovers not at all) |
| AuditTrail.WebhooksCountTheTrail | apps/api/src/modules/signatures/signatures.service.ts:88-113 | on every run each kind of webhook but request.sent is emitted exactly as often as there are entries it announces that could be queued |
| TrailOrder.DeadlineIsObserved | apps/api/src/modules/signatures/signatures.service.ts:339-345 | on every run no view, signature, decline or handover is recorded after the deadline that was asked for, the sweep reminds nobody from then on, and a request expires only then |
| TrailOrder.ClosedMeansClosed | apps/api/src/modules/signatures/signatures.service.ts:620-642 | on every run only cancellations are recorded after the entry that expires or cancels the request, and nothing at all after the one that completes it |
| TrailOrder.TrailIsInTimeOrder | apps/api/src/modules/signatures/signatures.service.ts:1302-1328 | on every run the trail is in time order |
| Reminders.RemindersAreSpaced | apps/api/src/modules/signatures/signatures.service.ts:644-716 | on every run mixing both kinds, an automatic reminder is at least afterDays after that signer's previous one and a manual one at least 24 hours |
| Reminders.RemindersReachWhoeverIsUp | apps/api/src/modules/signatures/signatures.service.ts:724-756 | no reminder ever goes to a carbon copy, a signer that signed or declined, or one whose turn has not come |
| Reminders.SweepStaysUnderCap | apps/api/src/modules/signatures/signatures.service.ts:684-716 | the sweep reminds one signer at most the configured number of times, however many manual reminders there are |
| ReminderEffects.RemindsExactly | apps/api/src/modules/signatures/signatures.service.ts:644-672 | on every run a deliberate reminder adds exactly one job, one entry and one to the counter for a signer if and only if the request is active, the signer is named or nobody is, and it is a real signer, INVITED or VIEWED, with all earlier ones signed in sequential mode and no reminder younger than 24 hours; otherwise none; and nothing else happens |
| ReminderEffects.SweepRemindsExactly | apps/api/src/modules/signatures/signatures.service.ts:684-756 | on every run the sweep reminds a signer, once, if and only if mail can be sent, the deadline has not come, and the same holds with the configured interval and fewer reminders than the maximum |
| SigningService.SweepTotals | apps/api/src/modules/signatures/signatures.service.ts:684-716 | the totals the sweep returns are the number of requests that were due and the number of reminders written to all their trails |
| Placements.BindingIsTotalIff | apps/api/src/modules/signatures/signatures.service.ts:1420-1444 | pigeonhole: with distinct order indexes, every index the range check accepts is bound to a row if and only if all order indexes are below the number of signers |
| Placements.CreationBinds | apps/api/src/modules/signatures/signatures.service.ts:1384-1444 | a placement is bound to exactly the signer whose order index it names, or to nobody |
| Placements.SignedMeansFilled | apps/api/src/modules/signatures/signatures.service.ts:1450-1496 | on every run, each required field of a signed signer holds a value that is not empty |
| Placements.CompletedFilledIff | apps/api/src/modules/signatures/signatures.service.ts:1450-1496 | a completed request has a required field filled if and only if the field is bound to a real signer |
| Placements.UnboundPlacementCompletesEmpty | apps/api/src/modules/signatures/signatures.service.ts:1420-1444 | a request whose order indexes have a gap is accepted, and completes with a required field that nobody was asked for |
| Placements.SignedFieldsAreFrozen | apps/api/src/modules/signatures/signatures.service.ts:1480-1496 | once a signer has signed, no call of anybody changes that signer's fields, and no field changes hands (that edits of the template cannot reach a request is built into the copy made at creation) |
| Placements.CollectedFields | apps/api/src/modules/signatures/signatures.service.ts:1480-1496 | a signing call fills the signer's own required fields and changes no other field |
| RequestInvariant.ServeKeepsSound | apps/api/src/modules/signatures/signatures.service.ts:307-783 | every call keeps the validity of the request object: workflow, audit trail, in-person marks, emitted webhooks and placed fields together |
| SigningService.CreateRequest | apps/api/src/modules/signatures/signatures.service.ts:130-248 | defaults, order, duplicate checks, template checks, rows and bindings are computed with loops; the result is the creation step that CreatedAsAsked, SendsAsAsked and CreatedIff pin down, and the object is valid |
| SigningService.OrderSigners | apps/api/src/modules/signatures/signatures.service.ts:144-146 | inserting the signers one at a time gives the stable order of the specification |
| SigningService.NoDuplicateEmails | apps/api/src/modules/signatures/signatures.service.ts:147-149 | comparing the number of different emails with the number of signers finds exactly the duplicates |
| SigningService.TemplatePlacements | apps/api/src/modules/signatures/signatures.service.ts:1384-1414 | an assignee out of range anywhere is reported before an attachment anywhere |
| SigningService.BindPlacements | apps/api/src/modules/signatures/signatures.service.ts:1420-1444 | binding through a map from order index to row gives each placement the row with that index, or none |
| SigningService.SigningRequest.CanSignerAct | apps/api/src/modules/signatures/signatures.service.ts:1230-1251 | the search for an unsigned earlier real signer decides exactly whose turn it is |
| SigningService.SigningRequest.EverybodySigned | apps/api/src/modules/signatures/signatures.service.ts:1261-1263 | true exactly when every real signer has signed |
| SigningService.SigningRequest.NextPending | apps/api/src/modules/signatures/signatures.service.ts:1281-1283 | finds the first pending real signer in order, or none |
| SigningService.SigningRequest.ResolveFieldValues | apps/api/src/modules/signatures/signatures.service.ts:1450-1478 | later values win, a value for somebody else's field is refused before a missing required one, and otherwise the values are returned |
| SigningService.SigningRequest.WaitingSigners | apps/api/src/modules/signatures/signatures.service.ts:920-923 | collects exactly the real signers that are invited or have viewed, in order |
| SigningService.SigningRequest.PublicSession | apps/api/src/modules/signatures/signatures.service.ts:307-399 | expires, promotes or refuses with the whole state and reply of the specification, keeping the object valid |
| SigningService.SigningRequest.Sign | apps/api/src/modules/signatures/signatures.service.ts:402-545 | the checks and updates in the source's order give the signing step that Signing, SigningHandsOn and SigningRefused pin down, keeping the object valid |
| SigningService.SigningRequest.AdvanceWorkflow | apps/api/src/modules/signatures/signatures.service.ts:1253-1292 | completes, or finds and invites the next pending signer: the step that SigningHandsOn and NextSignerIsInvited pin down |
| SigningService.SigningRequest.Decline | apps/api/src/modules/signatures/signatures.service.ts:547-593 | whole new state and reply of the specification, keeping the object valid |
| SigningService.SigningRequest.Remind | apps/api/src/modules/signatures/signatures.service.ts:644-672 | the whole state and count of the step that RemindsExactly pins down, keeping the object valid |
| SigningService.SigningRequest.EligibleReminderTargets | apps/api/src/modules/signatures/signatures.service.ts:724-756 | the loop collects, in row order, the signers that RemindsExactly and SweepRemindsExactly say are reminded |
| SigningService.SigningRequest.DispatchReminders | apps/api/src/modules/signatures/signatures.service.ts:758-784 | the loop queues, counts and records one reminder per target, in order |
| SigningService.SigningRequest.InPersonSession | apps/api/src/modules/signatures/signatures.service.ts:903-972 | the whole state and reply of the step that HandoverIsToTheSignerMeant and HandoverToNobody pin down, keeping the object valid |
| SigningService.SigningRequest.CaptureFieldValues | apps/api/src/modules/signatures/signatures.service.ts:1480-1496 | the loop updates exactly the submitted fields |
| SigningService.SweepDueReminders | apps/api/src/modules/signatures/signatures.service.ts:684-716 | over many requests: each is taken to the state that SweepRemindsExactly describes, all stay valid, and both totals are returned |
| Dns.CrashSafe | infra/cerulean/provision.py:512-559 | after any number of provisioning runs, each stopped after any API call, one run that ends leaves exactly one A record per host, the wanted one, and every unrelated record as it was at the beginning |
| Dns.ThenNothingToDo | infra/cerulean/provision.py:531-532 | the run after that plans no call and reports unchanged for every host, however the records are listed |
| Dns.FullRunSettles | infra/cerulean/provision.py:512-559 | one complete run leaves exactly one A or CNAME record at the name: the wanted A record |
| Dns.UnchangedIffSettled | infra/cerulean/provision.py:531-532 | no call is made, and unchanged is reported, if and only if the name holds exactly the wanted record already |
| Dns.AddedIffNothingThere | infra/cerulean/provision.py:531-559 | added is reported if and only if the name had neither an A nor a CNAME record, updated if and only if it had one and was not settled |
| Dns.UnrelatedUntouched | infra/cerulean/provision.py:512-559 | after every single call, records at other names and of other types are as often there as before |
| Dns.CorrectRecordKept | infra/cerulean/provision.py:534-558 | an A record that is already right is there after every single call |
| Dns.AlwaysAvailable | infra/cerulean/provision.py:484-559 | a name that has an A record has one after every single call |
| Dns.NeverAddedBesideCname | infra/cerulean/provision.py:536-552 | the only record ever added is the wanted one, and never while a CNAME is at the name (section 3.6.2 of RFC 1034) |
| Dns.WindowIff | infra/cerulean/provision.py:484-505 | after k calls a name has neither an A nor a CNAME record if and only if it began without an A record and k is the number of CNAMEs deleted: the one window the procedure cannot close |
| DnsClient.CeruleanClient.ReconcileDnsRecord | infra/cerulean/provision.py:481-559 | makes exactly the planned calls, or a strict prefix of them when a call fails, and returns the action; a dry run makes none |
| DnsClient.CeruleanClient.ProvisionHosts | infra/cerulean/provision.py:822-827 | the loop over hosts is a run of the model, complete if and only if it reports success |
| Webhooks.FailingIffFailures | apps/api/src/modules/webhooks/webhooks.service.ts:228-281 | over every reachable history an active endpoint is shown as failing if and only if its count of failures since the last success is positive |
| WebhookEffects.HealthIsExact | apps/api/src/modules/webhooks/webhooks.service.ts:228-301 | over every history the health shown is what the rows say: the latest delivery, the latest failure and its error, how many rows failed since, and, for a disabled endpoint only, the reason with the days to the nearest whole one |
| Webhooks.SweepDecidesByTheShownCount | apps/api/src/modules/webhooks/webhooks.service.ts:396-463 | the sweep disables an active endpoint if and only if the window since the shown last success (or registration) has passed and the shown count reaches the minimum; with a minimum of one or more it was then shown as failing |
| Webhooks.ReportsAreTheDisabled | apps/api/src/modules/webhooks/webhooks.service.ts:396-463 | the sweep reports exactly the endpoints it disables, each with the count the console shows |
| Webhooks.WithoutMinimumHealthyIsDisabled | apps/api/src/modules/webhooks/webhooks.service.ts:408-436 | with a minimum of zero an idle endpoint is disabled while it is shown as healthy |
| Webhooks.ProtectedIff | apps/api/src/modules/webhooks/webhooks.service.ts:422-436 | an active endpoint is safe from every sweep with a given window, however few failures it asks for, if and only if it is younger than the window or a delivery within it is still recorded as delivered |
| Webhooks.SuccessProtectsUnlessRetried | apps/api/src/modules/webhooks/webhooks.service.ts:422-436 | a delivery that gets through protects its endpoint from every sweep within the window, whatever else happens, unless that delivery is attempted again |
| Webhooks.RetriedSuccessIsForgotten | apps/api/src/modules/webhooks/webhooks.service.ts:422-436 | a reachable history in which it is attempted again, fails, and the next sweep disables the endpoint at once |
| Webhooks.AttemptsAreCountedIff | apps/api/src/modules/webhooks/webhooks.service.ts:572-666 | over every history, a row's counter is the number of attempts made at the delivery if and only if none went out and failed with a message that begins like the service's own HTTP error (no error of fetch is known to) |
| Webhooks.ReasonStaysTrue | apps/api/src/modules/webhooks/webhooks.service.ts:289-301 | until something gets through, the reason shown for an endpoint that the sweep disabled names at least the minimum of failures in at least the days of the window |
| Webhooks.VerdictPersists | apps/api/src/modules/webhooks/webhooks.service.ts:396-463 | once an endpoint would be given up it still would be after any calls whatever other than a delivery that gets through to it |
| Webhooks.ReenabledIsDisabledAgain | apps/api/src/modules/webhooks/webhooks.service.ts:361-376 | an endpoint that is re-enabled after the sweep disabled it is disabled again by the next sweep unless a delivery got through in between |
| WebhookEffects.SwitchedOnIsSent | apps/api/src/modules/webhooks/webhooks.service.ts:361-376 | switching sets the flag and the time of the one endpoint found, and so decides whether it is sent the next event it subscribes to; no other endpoint changes |
| WebhookEffects.RowTellsLastTry | apps/api/src/modules/webhooks/webhooks.service.ts:572-666 | over every history a delivery row tells the last recorded attempt: delivered if it went to an active endpoint and got a 2xx answer, otherwise failed with the reason, pending if there was none |
| WebhookEffects.EmitCountsRows | apps/api/src/modules/webhooks/webhooks.service.ts:521-543 | the number returned for an event is the number of delivery rows it added |
| WebhookEffects.SweepAddsUp | apps/api/src/modules/webhooks/webhooks.service.ts:396-463 | the endpoints active before a sweep are those still active and those reported, each once, and their number is the number scanned |
| WebhooksService.EndpointRow.Attempt | apps/api/src/modules/webhooks/webhooks.service.ts:572-666 | one delivery attempt updates exactly its row, as the model says for each outcome, and throws exactly for a failure at an active endpoint |
| WebhooksService.Service.SweepUnhealthyEndpoints | apps/api/src/modules/webhooks/webhooks.service.ts:396-463 | the loop disables exactly the endpoints the model disables and returns how many were active and the reports, in order |
| WebhooksService.Service.EmitEvent | apps/api/src/modules/webhooks/webhooks.service.ts:521-543 | queues one fresh delivery for each active subscribed endpoint of the organization, for no other, and returns their number |
| WebhooksService.Service.AttemptDelivery | apps/api/src/modules/webhooks/webhooks.service.ts:572-666 | changes nothing but one row of one endpoint; nothing at all if the row is gone |
| WebhooksService.Service.Switch | apps/api/src/modules/webhooks/webhooks.service.ts:361-376 | changes one endpoint of the caller's organization and returns its fresh health |
| Sessions.AtMostOneLive | apps/api/src/modules/auth/auth.service.ts:183-249 | for every interleaving of refresh steps, logins and revocations, each login has at most one unrevoked session, counting calls that revoked one and have yet to replace it |
| Sessions.SameTokenWinsOnce | apps/api/src/modules/auth/auth.service.ts:213-217 | two refreshes that present the same token never both get past the conditional revocation |
| Sessions.OneSuccessor | apps/api/src/modules/auth/auth.service.ts:213-221 | no session is ever replaced by two |
| Sessions.EndedForever | apps/api/src/modules/auth/auth.service.ts:183-249 | a login with no unrevoked session and no winner under way never has a live session again |
| Sessions.LoggedOutRevivesIff | apps/api/src/modules/auth/auth.service.ts:231-233 | after logging out everywhere a login comes back to life in some continuation if and only if a refresh of it had already won |
| Sessions.RevokingEndsIff | apps/api/src/modules/auth/auth.service.ts:223-229 | revoking by token ends the login if and only if the token is the one in use or the login had ended |
| Sessions.CrashedWinnerEndsTheLogin | apps/api/src/modules/auth/auth.service.ts:213-221 | a refresh that dies between revoking and creating leaves the login without a live session for good |
| Sessions.AloneSucceedsIff | apps/api/src/modules/auth/auth.service.ts:183-221 | undisturbed, a refresh succeeds if and only if the token's session is unrevoked, unexpired, shown with the same fingerprint and its user active; then that row is revoked now and one row for the same user and fingerprint is added, good for 30 days; otherwise no row changes |
| Sessions.TradedToken | apps/api/src/modules/auth/auth.service.ts:183-221 | the new token works at once, and presenting the old one again changes no session |
| AuthService.SessionTable.Refresh | apps/api/src/modules/auth/auth.service.ts:183-221 | the method is the undisturbed sequence of the model's steps, result included |
| AuthService.SessionTable.LoginWithIdp | apps/api/src/modules/auth/auth.service.ts:132-177 | makes the account active and starts a login of its own whose one live session is the returned token's |
| AuthService.SessionTable.LogoutAll | apps/api/src/modules/auth/auth.service.ts:231-233 | stamps every session of the user and no other row; afterwards no login of the user has a live session |
| AuthService.SessionTable.RevokeByToken | apps/api/src/modules/auth/auth.service.ts:223-229 | revokes the session under that token and fingerprint and no other |
| Reindex.StartIsCoveredExactlyOnce | apps/api/src/modules/admin/admin.service.ts:115-156 | with arbitrary inserts between pages, every document live at the start is sent exactly once |
| Reindex.SentAscends | apps/api/src/modules/admin/admin.service.ts:130-156 | whatever happens to the table, ids are sent in strictly ascending order, so none twice |
| Reindex.SentWasLive | apps/api/src/modules/admin/admin.service.ts:130-156 | nothing is sent that was not live when its page was read |
| Reindex.UnchangedTableIsSent | apps/api/src/modules/admin/admin.service.ts:130-156 | on an unchanging table exactly its live documents are sent, in order |
| Reindex.LeftOutIff | apps/api/src/modules/admin/admin.service.ts:127-156 | over a whole run, a document that is live throughout is left out if and only if some page is read with a cursor that is no longer live and either has no row left or has that document as the first live one after it |
| Reindex.PageCompleteIff | apps/api/src/modules/admin/admin.service.ts:131-146 | a page leaves no live document behind if and only if its cursor's document is still live or nothing live comes after it |
| Reindex.DeletionHidesALiveDocument | apps/api/src/modules/admin/admin.service.ts:127-156 | deleting a page's last document between two pages hides a document that was live throughout |
| ReindexJob.ReindexSearch | apps/api/src/modules/admin/admin.service.ts:115-161 | the loop ends, hands the index exactly the batches of the model and returns the total, the two sums and the index size |
| ReindexJob.UnchangedRebuildIsComplete | apps/api/src/modules/admin/admin.service.ts:115-161 | on an unchanging database indexed + failed = total, and failed = 0 implies that the index took exactly the live documents |
| ReindexJob.GrowingRebuildCoversTheStart | apps/api/src/modules/admin/admin.service.ts:115-161 | with inserts only, failed = 0 implies that the index took every document live at the start |
| ReindexJob.EveryDocumentIsReported | apps/api/src/modules/admin/admin.service.ts:151-153 | every document sent is counted once, as indexed or as failed |
| ReindexJob.SearchIndex.IndexDocs | apps/api/src/storage/meilisearch.service.ts:64-77 | all or nothing: a batch is reported as indexed or as failed as a whole, and what is reported as indexed is in the index |
| AuditExport.ExportRoundTrip | apps/api/src/modules/audit/audit.service.ts:64-79 | for all rows, reading the export with the reader of section 2 of RFC 4180 gives the header and exactly the rows |
| AuditExport.EveryFieldUnderItsName | apps/api/src/modules/audit/audit.service.ts:64-79 | read back, the n-th record holds each field of the n-th row in the column of its name, a missing one as empty |
| AuditExport.ExportIsInjective | apps/api/src/modules/audit/audit.service.ts:64-79 | two exports are the same text if and only if their rows have the same cells |
| AuditExport.ReadDoubled | apps/api/src/modules/audit/audit.service.ts:65 | inside quotes an escaped value reads back as itself, whatever quotes, commas and line feeds it holds |
| HtmlEscaping.FivePassesAreOneMap | apps/api/src/modules/mailer/email-templates.ts:5-12 | the five whole-string replacements equal one substitution per character |
| HtmlEscaping.UnescapeInverts | apps/api/src/modules/mailer/email-templates.ts:5-12 | decoding the five entities gives back the original text |
| HtmlEscaping.EscapedIsSafe | apps/api/src/modules/mailer/email-templates.ts:5-12 | the result holds no raw markup character, and every ampersand in it begins one of the five entities |
| HtmlEscaping.UnchangedIffHarmless | apps/api/src/modules/mailer/email-templates.ts:5-12 | a text is left as it is if and only if it holds none of the five characters |
| QuoteScanner.StringSpans | scripts/secret-scan.py:219-246 | the nested loops end and return exactly the literals a left-to-right automaton reads |
| QuoteScanner.SpansAreOrdered | scripts/secret-scan.py:219-246 | spans are disjoint and in order, each begins at a quote outside any other and ends at most one past the line |
| QuoteScanner.InsideIffOpen | scripts/secret-scan.py:249-250 | before the end of the line, a position is inside the spans if and only if the automaton has an earlier literal open on reaching it |
| QuoteScanner.InsideAtTheEnd | scripts/secret-scan.py:249-250 | at the end of the line it is inside if and only if the line ends in a dangling backslash of an open literal; elsewhere never |
| QuoteScanner.NoQuoteOutside | scripts/secret-scan.py:219-246 | every quote on the line begins a span or is inside one |

## Left out

- SigningService.CreateRequest: as SigningModel.CreateRequest below; the write of the document's status and template link is left out.
- SigningService.SigningRequest.PublicSession: as SigningModel.PublicSession below.
- SigningService.SigningRequest.Sign: as SigningModel.Sign below.
- SigningService.SigningRequest.AdvanceWorkflow: the write of the document's own status is left out, because two requests on one document can overwrite it; the request's status is modelled.
- SigningService.SigningRequest.InPersonSession: as SigningModel.InPersonSession below.
- SigningRace.Advance: field capture is folded into the mark and the document's status into the completion.
- SigningModel.CreateRequest: takes emails as already trimmed and lower-cased, the document lookup and status as given, and leaves out titles, messages, workflow rules other than the refusal of a rule target, and rows without a tenant.
- SigningModel.Sign: takes the outcome of the document-hash comparison and of the certificate provider as given; times of viewing and signing, IP addresses and signature images are not kept on rows (events carry times).
- SigningModel.PublicSession: the page content returned beside the verdict (branding, fields, signer list) and the special handling of the demo token are not modelled.
- SigningModel.InPersonSession: the signer is named by row position, and the returned URL by the signer it belongs to.
- SigningModel.RecordEvent: whether a webhook can be queued is decided in advance, per position in the log, by an arbitrary set.
- SigningModel.ResolveFieldValues: a value is a string, null, undefined or any other JSON value; the source's validation looks at nothing else.
- SigningRuns.Step: service calls are atomic there; the interleaving of signing calls is SigningRace, and races of other calls (publicSession and decline read a status and write it later without a guard) are not modelled.
- SigningRace.AtRest: a race concerns signing calls on a parallel request with no expiry, decline or cancellation in between; the request row is read at the call's beginning.
- Dns.Plan: record types and names are taken as already normalised, TTLs are ignored, and a delete call removes one matching record.
- DnsClient.CeruleanClient.Mutate: HTTP, scopes, dry-run output text and retries are reduced to a number of calls that will succeed before one fails.
- WebhooksService.Service.Switch: the sentence that explains a disabled endpoint is returned as its parts (failures, days, last error), not as text.
- Webhooks.DescribeHealth: rows with equal timestamps are taken in row order, and a descending order puts missing timestamps first, as PostgreSQL does.
- Webhooks.Attempted: the two clock readings of a successful attempt are one instant; signing of the payload and the abort timer are not modelled.
- Webhooks.Step: endpoints are not deleted, URL checks are not modelled, event names are taken as resolved, and each service call is atomic.
- WebhooksService.Service.SweepUnhealthyEndpoints: notifying the organization's members, and how many were notified, is not modelled.
- Sessions.Step: suspending a user is the status write alone (an administrator's revocation of the sessions is a step of its own); a token is the position of its row, so JSON Web Token checks, hashing and expiry of the token itself are abstracted; a fingerprint is compared as given.
- AuthService.SessionTable.LoginWithIdp: claims, profile fields and the platform role are not modelled; the account's status and the session are.
- AuthService.SessionTable.LogoutAll: the one bulk update is one assignment, as it is one query in the source.
- Reindex.PageStart: follows Prisma's cursor (rows from the cursor's row on in id order, one skipped, none if the row does not exist); ids are compared as 128-bit numbers and deletion is by a mark on the row.
- ReindexJob.SearchIndex.IndexDocs: Meilisearch takes a batch at once; its task queue is not modelled, but an answer may be lost after the batch is taken.
- AuditExport.Export: timestamps and metadata are taken as the strings they print to, and the query's 50,000-row limit and filters happen before.
- Document status across requests, selfSign, the demo session, evidence reports and compliance statements.
- Certificate providers, identity-assurance scoring, cryptography, and all user-interface code.
- Provisioning beyond DNS records, the secret scanner's patterns, and the other infrastructure scripts.
