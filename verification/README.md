# Verified model of the customer support platform's backend

This project models the parts of `apps/api/app` whose behaviour spans many calls, and proves what they
keep over whole runs, whole traces and every interleaving. `dafny verify dfyconfig.toml` checks all of it.

## What is modelled

**The service desk and its SLA clock.** `Store` holds the rows; `Tickets`, `Portal` and `Operations` hold
the services as classes over a database session, each method proved to leave exactly the rows that a
function of the old rows says, or on an exception none; `SlaClock` holds those functions for the clock;
`History` runs any sequence of ticket, message, portal, policy, read and tick calls, and `Backend` shows that
such a run is what the service methods do, call after call. `Ledger` says what a run is in terms of its calls
alone: which are refused and why, what they make of each ticket, and what they write to each log. Not every
service method has a row below: those that have none are reached through `Backend.Backend.Perform` or
`AuthSessions.AuthService.Perform`. The main results:

- right after a tick, the recorded response and resolution times are the history's, and the breach flags
  are what a pure replay makes of those times, the stored deadlines and the instant of the tick, so two tick
  schedules over one history agree wherever their deadlines do (`SlaHistory`);
- a recorded verdict is final and exact, and nothing a client writes stops a clock (`SlaHistory`);
- deadlines count from the call that opened the ticket, are fixed by the history up to the first tick or read
  that looks at it, and never move (`SlaDeadlines`);
- each objective is announced at most once as a warning and once as a breach, and only when due; sweeps are
  quiescent by the third (`SlaAlerts`); and which ones are announced at all is read off the history and the
  ticks, exactly (`SlaAnnouncements`);
- a ticket is what its own accepted calls make of it, and the logs list the accepted calls (`Ledger`); the
  audit trail replays the lifecycle and the assignment log ends with the assignee (`Lifecycle`);
- the scheduler isolates workspaces: order, and another workspace's exception, do not matter (`Scheduler`);
- a portal user reads exactly the linked client's tickets and the messages in their conversations; one user's
  steps show in that user's reads and never in another's (`Portal`).

**Redaction.** `Redaction` writes the two regular expressions as the backtracking engine runs them, proves
the matchers exact and that nothing but the matches is replaced, and proves what one, two and three
applications of `redact_sensitive` leave.

**Admission protocols.** `CircuitBreaker` (N workers, Redis or process-local state), `AttachmentQuota`
(interleaved transactions and a row lock), `RateLimit` (fixed windows), `SuggestionWindow` (a count taken
before an arbitrarily long call), `AuthSessions` and `AuthRaces` (token rotation, one call after another and
overlapping), `WorkspaceSlugs` (a search loop). Each bound is proved over every run, and the bounds of the
breaker, the limiter, the suggestion window and overlapping refreshes are proved to be reached.

Clocks, the outcome of HTTP calls, fresh identifiers and tokens, and the instant or turn at which an
exception escapes are parameters of the calls. Instants are whole microseconds, durations in the settings
seconds, minutes or days as in the source. Service calls are serialized, except where a module models
their interleaving.

## Where the code and its documents differ

- `docs/adr/ADR-008-deterministic-operations.md:18` calls SLA state reconstructible from history. The times
  are (`SlaHistory.TickRefinesReplay`); the deadlines are not, because the row takes the policy in force when
  it is first attached, and the breach verdicts are only given the deadlines. `SlaDeadlines.MissedTickMatters`
  gives two schedules over one history of which one reports a breach; `SlaDeadlines.DeadlinesAgreeIff` and
  `SlaDeadlines.VerdictsAgreeIff` say exactly when deadlines and verdicts agree, in terms of the history up to
  the first tick or read in each schedule, and `SlaDeadlines.DeadlinesAgreeUnlessAltered` that a missed one
  matters only if a policy or the priority changes.
- `docs/adr/ADR-008-deterministic-operations.md:18-19` says that a missed tick cannot erase an event and that
  evaluation notifies. An objective that is met late, before any tick has run past its deadline, is recorded
  as breached and nobody is told: `SlaAnnouncements.LateReplyIsNotAnnounced` gives a run that needs no outage,
  `SlaAnnouncements.LateAnswerIsSilent` the family, `SlaAnnouncements.BreachIsAnnouncedIff` the exact condition.
- `docs/adr/ADR-007-advisory-ai-boundary.md:16` says prompts are redacted for email addresses. One
  application can leave an address that replacing a phone number has given a word boundary:
  `Redaction.OnceIsNotEnough` gives a text, `Redaction.OnceIsEnoughIff` the exact condition.
- `docs/adr/ADR-007-advisory-ai-boundary.md:19` gives the suggestion limit as a number per minute. With
  one worker it is (`SuggestionWindow.SuggestionsPerMinute`); with n workers, whose calls overlap, up to
  n - 1 more are stored, and `SuggestionWindow.BoundIsReached` shows that they can be.
- `docs/adr/ADR-007-advisory-ai-boundary.md:20` and `docs/architecture.md:84` describe a process-local
  breaker. The code keeps it in Redis and falls back to the process only while Redis raises; both are modelled.
- `docs/adr/ADR-002-authentication.md:21-23` says a token that has been rotated is rejected. One call after
  another it is (`AuthSessions.AcceptedAtMostOnce`); but no row is locked between lookup and revocation, so
  of n overlapping refreshes of one token up to n, and no more, can be accepted
  (`AuthRaces.AcceptedAtMostNTimes`, `AuthRaces.BoundIsReached`).

## Model

| member | source | states |
|---|---|---|
| TicketEnums.ReplayMeaning | apps/api/app/models/ticket_enums.py:31-76 | a log of moves replays from NEW exactly when consecutive moves chain and each is an allowed edge; such a log never re-enters NEW and ends at the replayed status |
| Portal.PortalService.LinkClientUser | apps/api/app/services/portal_service.py:20-63 | a link is created, found again unchanged, or refused because the user or the client is linked otherwise |
| Portal.PortalService.AddMessage | apps/api/app/services/portal_service.py:170-213 | the message goes inbound into the ticket's oldest web conversation, or a new one |
| Portal.StepKeepsSound | apps/api/app/services/portal_service.py:20-63 | every portal step keeps the links of each workspace a partial bijection between users and clients |
| Portal.AgreementDeterminesReads | apps/api/app/services/portal_service.py:84-168 | two desks that agree on a link and on its client's tickets, conversations and messages answer every read through it alike |
| Portal.StepsDoNotInterfere | apps/api/app/services/portal_service.py:20-213 | a portal step that acts for one user changes nothing that another user reads: neither accounts, nor tickets, nor messages |
| Portal.RunsDoNotInterfere | apps/api/app/services/portal_service.py:20-213 | nor does any run of such steps, which also keeps the links a partial bijection |
| Portal.OwnTicketShows | apps/api/app/services/portal_service.py:107-149 | a ticket opened through a link is added, as opened, to what the link lists, and nothing else there changes |
| Portal.OwnMessageShows | apps/api/app/services/portal_service.py:155-213 | a message added becomes the last of the ticket's messages, inbound and under the user's name, in its oldest web conversation or else the new one; the messages before it stay |
| Portal.ReadsShow | apps/api/app/services/portal_service.py:84-168 | a user reads through a link exactly the tickets of its client, and of each exactly the messages in its conversations, whoever wrote them, in the order stored |
| Portal.LinkShows | apps/api/app/services/portal_service.py:20-82 | a link once made, or found again, shows its user the client, if active, with all its tickets |
| Operations.OperationsService.EnsurePolicy | apps/api/app/services/operations_service.py:48-59 | answers with, and leaves stored, the active policy or else the default of the priority |
| Operations.OperationsService.AttachSla | apps/api/app/services/operations_service.py:61-76 | a ticket without a row gets one whose deadlines are its creation time plus the policy's minutes; one with a row keeps it |
| Operations.OperationsService.MaterializeWorkspaceSlas | apps/api/app/services/operations_service.py:78-80 | in whatever order the rows are listed, exactly the workspace's tickets without a row get one, each under the policy in force before the loop |
| Operations.OperationsService.ResolutionIn | apps/api/app/services/operations_service.py:100-113 | the loop over audit rows finds the time of the first one that resolves or closes, skipping rows that do not parse |
| Operations.OperationsService.RefreshSlaFromHistory | apps/api/app/services/operations_service.py:82-116 | attaches if need be and judges, strictly, only those objectives that were not judged before |
| Operations.OperationsService.SweepObjective | apps/api/app/services/operations_service.py:267-287 | breach before warning, each only if its flag is clear, at most one notification, to the assignee or else the creator |
| Operations.OperationsService.EvaluateSla | apps/api/app/services/operations_service.py:247-290 | the loop over the active rows leaves what one simultaneous sweep would, with its counters, committed; after an exception while attaching, inside a turn or at the commit nothing is committed |
| Backend.Backend.Perform | apps/api/app/services/ticket_service.py:67-231 | every step of a run is what the service method it stands for does to the database, committed, or on an exception nothing |
| Backend.Backend.PerformAll | apps/api/app/services/operations_service.py:28-317 | so calling the services in turn from an empty database leaves exactly the rows of the run |
| History.TicksLeaveNoTrace | docs/adr/ADR-008-deterministic-operations.md:13-19 | a run and the same run without ticks and clock reads have the same history |
| History.StepGrows | apps/api/app/services/ticket_service.py:175-231 | every call keeps each ticket's workspace, client, creator and creation time and appends at most one row, dated now where rows are dated, to each of the logs: assignments, conversations, messages and audit |
| Ledger.RefusedFor | apps/api/app/services/ticket_service.py:32-231 | every call of the desk, the portal and the policies is refused for the first of three reasons and accepted when there is none: what it names is not there or not the caller's, a rule forbids it, an identifier is taken |
| Ledger.TicketIsItsCalls | apps/api/app/services/ticket_service.py:67-231 | a ticket is as the call that opened it says, with the priority, status and assignee of the last accepted edit, transition and assignment of it; no other call changes it |
| Ledger.EveryTicketWasOpened | apps/api/app/services/ticket_service.py:67-102 | every ticket was opened by one call of the run, new and unassigned, for that call's workspace, client and creator, and was created at the time of that call |
| Ledger.LogsAreTheCalls | apps/api/app/repositories/audit_repo.py:14-37 | after any run the audit trail is the list of its accepted calls, and the assignments, conversations and messages are those they gave, in order, none missing and none added |
| Ledger.OperatorMessageShows | apps/api/app/services/portal_service.py:155-168 | a message an operator enters, outbound or inbound, is from then on the last that the ticket's client lists; those before it stay |
| Lifecycle.AuditReplaysLifecycle | apps/api/app/services/ticket_service.py:175-201 | in every reachable state the status events of a ticket replay from NEW to its current status along allowed edges, never back to NEW |
| Lifecycle.AssigneeIsLogged | apps/api/app/services/ticket_service.py:203-231 | in every reachable state the assignee is the last of the ticket's assignment log, or nobody, and a member of its workspace |
| SlaHistory.TickRefinesReplay | apps/api/app/services/operations_service.py:82-290 | after any run that ends with a tick, every ticket of the workspace has a row whose times and breach flags are the pure replay of history, deadlines and now |
| SlaHistory.TickScheduleIsIrrelevant | apps/api/app/services/operations_service.py:247-290 | two schedules of ticks and reads over one history that end with the same tick store the same times and verdicts wherever the deadlines agree |
| SlaHistory.VerdictIsFinal | apps/api/app/services/operations_service.py:90-113 | a recorded time never changes again, is the history's, and its flag is set exactly when it is strictly later than the deadline |
| SlaHistory.LookRecordsHistory | apps/api/app/services/operations_service.py:82-116 | right after a tick or a read of a ticket's clocks, its recorded times are the history's and judged strictly |
| SlaHistory.ReadRefusedIff | apps/api/app/services/operations_service.py:230-234 | in every reachable state a read of a ticket's clocks fails exactly when the workspace has no such ticket |
| SlaHistory.ResolvedIffPathVisited | apps/api/app/services/operations_service.py:100-113 | after a tick or a read the resolution time is set exactly when the ticket's path has visited resolved or closed |
| SlaHistory.FirstResolutionIsEarliest | apps/api/app/repositories/operations_repo.py:126-137 | the first resolving event the trail lists is the earliest of all |
| SlaHistory.EarliestReplyIsSent | apps/api/app/repositories/operations_repo.py:111-124 | the response time found is that of a reply in the ticket's conversations, no reply is earlier, and none is found only if there is none |
| SlaHistory.OnlyOperatorsStopTheClocks | docs/adr/ADR-008-deterministic-operations.md:17 | only an outbound message meets the response objective and only a transition to resolved or closed the resolution objective, once and at its own instant; nothing a client does |
| SlaHistory.OperatorsStopTheClocks | apps/api/app/repositories/operations_repo.py:111-137 | and the first accepted outbound message in a conversation of the ticket, and the first accepted transition to resolved or closed, do meet them |
| SlaDeadlines.PolicyIsHistory | apps/api/app/services/operations_service.py:48-59 | ticks and reads store default policies, but the policy in force after a run is the one its history without them puts in force |
| SlaDeadlines.PolicyIsItsCalls | apps/api/app/services/operations_service.py:48-59 | the policy in force for a workspace and priority is the last accepted one that was set for them, or else the default |
| SlaDeadlines.LookAttaches | apps/api/app/services/operations_service.py:61-80 | a ticket without a row gets one from a sweep of its workspace or a read of its clocks, and from no other call, under the policy then in force |
| SlaDeadlines.AttachedIffLooked | apps/api/app/services/operations_service.py:78-80 | a ticket has a row exactly when the schedule has a first sweep of its workspace or read of its clocks after its creation |
| SlaDeadlines.DeadlinesAreFrozen | apps/api/app/services/operations_service.py:61-76 | deadlines are creation time plus the minutes that the history up to that first look gives, whatever came later |
| SlaDeadlines.DeadlinesCountFromOpening | apps/api/app/services/operations_service.py:61-76 | each deadline is the time of the call that opened the ticket plus the minutes that the calls up to the first look give its workspace and priority |
| SlaDeadlines.DefaultsCountFromOpening | apps/api/app/services/operations_service.py:16-21 | with no policy set, a response is due within 4 h, 2 h, 1 h or 15 min of the opening and a resolution within 48 h, 24 h, 8 h or 4 h, by priority, with the warning 60, 30, 15 or 5 min ahead |
| SlaDeadlines.DeadlinesAgreeIff | apps/api/app/services/operations_service.py:61-80 | two schedules over one history agree on a deadline exactly when the history up to the first look of each gives the same minutes |
| SlaDeadlines.VerdictsAgreeIff | apps/api/app/services/operations_service.py:82-290 | two schedules over one history that end with the same tick store the same times, and the same verdict exactly when the time met, or else now, is late by the deadlines of both first looks or of neither |
| SlaDeadlines.DeadlinesAgreeUnlessAltered | docs/adr/ADR-008-deterministic-operations.md:18 | a missed look changes no deadline unless a policy of the workspace or the ticket's priority is set between the two first looks |
| SlaDeadlines.MissedTickMatters | docs/adr/ADR-008-deterministic-operations.md:18 | two schedules over one history, one of which missed a tick, of which one reports a breach and the other none |
| SlaAlerts.NotifiedAtMostOnce | apps/api/app/services/operations_service.py:267-300 | over any run, at most one warning and one breach notification per objective of a ticket |
| SlaAlerts.OverdueIsAnnounced | apps/api/app/services/operations_service.py:267-287 | right after a tick, an objective that the tick finds open at or after its deadline has its breach notification |
| SlaAlerts.WarningIsAnnounced | apps/api/app/services/operations_service.py:267-287 | right after a tick that finds an objective open before its deadline but inside the warning time of the policy as it then stands, it has its warning |
| SlaAlerts.NotificationsAreWarranted | apps/api/app/services/operations_service.py:267-300 | over any run, every notification went to the ticket's creator or somebody it had been assigned to, and every breach names a deadline that has passed and was not met before |
| SlaAlerts.TickSendsWhatIsDue | apps/api/app/services/operations_service.py:252-300 | a tick adds a notification only to the ticket's last assignee, or if it has none to its creator, about an open objective that has reached its deadline or, for a warning, its warning time |
| SlaAlerts.NotificationsCameFromTicks | apps/api/app/services/operations_service.py:263-300 | every notification of a run was sent by one of its ticks, to the assignee the log gave at that tick or else the creator, about an objective not met by then |
| SlaAnnouncements.BreachIsAnnouncedIff | apps/api/app/services/operations_service.py:247-287 | over any run, an objective has its breach notification exactly when some tick found it open at or after its deadline |
| SlaAnnouncements.WarningIsAnnouncedIff | apps/api/app/services/operations_service.py:247-287 | and its warning exactly when some tick found it open in the warning time the history had by then put in force, before the deadline or after an earlier tick had announced the breach |
| SlaAnnouncements.LateAnswerIsSilent | apps/api/app/services/operations_service.py:90-113 | an objective met late, before any tick past its deadline, is recorded as breached by the next tick or read, and no breach notification is sent |
| SlaAnnouncements.LateReplyIsNotAnnounced | apps/api/app/services/operations_service.py:90-98 | an urgent ticket answered at sixteen minutes with the next tick at seventeen is breached and not announced |
| SlaAlerts.CountersCount | apps/api/app/services/operations_service.py:252-290 | the counters of a sweep are the tickets with an open objective and, kind by kind, the notifications it appended, and these are the drop in how many could still be sent |
| SlaAlerts.ThirdSweepIsIdle | apps/api/app/services/operations_service.py:252-288 | at a fixed instant the second sweep reaches a fixed point: the third changes and sends nothing |
| Scheduler.EvaluateElsewhere | apps/api/app/services/operations_service.py:247-290 | evaluating one workspace leaves every other one as it was |
| Scheduler.WorkspacesAreIsolated | apps/api/app/workers/sla_scheduler.py:17-34 | each workspace ends as evaluating it alone would leave it, a failing one as it was |
| Scheduler.TotalsAreSums | apps/api/app/workers/sla_scheduler.py:17-34 | the totals are the sums over the non-failing workspaces, each counted alone |
| Scheduler.OrderIsIrrelevant | apps/api/app/workers/sla_scheduler.py:17-34 | rows and totals do not depend on the order of the workspaces |
| Scheduler.ReachableWorkspacesAreIsolated | apps/api/app/workers/sla_scheduler.py:17-34 | in every reachable state all three hold, and the loop is a run of ticks, so what holds over runs holds of it |
| Scheduler.EvaluateAllWorkspaces | apps/api/app/workers/sla_scheduler.py:17-34 | the loop with its rollbacks leaves those rows and returns those totals |
| Redaction.EndFinds | apps/api/app/ai/gateway.py:12-13 | the backtracking matchers fail only where the expression matches nothing, and otherwise end the longest match |
| Redaction.AddressExample | apps/api/app/ai/gateway.py:12 | an address with every character the expression allows is one |
| Redaction.NumberExample | apps/api/app/ai/gateway.py:13 | and so are a number with every character allowed and one of the least length |
| Redaction.RedactReplaces | apps/api/app/ai/gateway.py:24-26 | redaction writes [REDACTED_EMAIL] for the leftmost, longest addresses, then [REDACTED_PHONE] for the leftmost, longest numbers, and keeps all the rest |
| Redaction.PassRemovesItsMatches | apps/api/app/ai/gateway.py:24-26 | each pass leaves no match of its own expression |
| Redaction.EmailPassAddsNoPhone | apps/api/app/ai/gateway.py:24-26 | replacing addresses in a text without phone numbers creates none |
| Redaction.RedactedIsPhoneFree | apps/api/app/ai/gateway.py:24-26 | one application always leaves a text without phone numbers |
| Redaction.TwiceRedactedIsClean | apps/api/app/ai/gateway.py:24-26 | two applications leave neither kind of match, and a third changes nothing |
| Redaction.UnchangedIffClean | apps/api/app/ai/gateway.py:24-26 | the texts redaction leaves alone are exactly those with neither kind of match |
| Redaction.OnceIsEnoughIff | apps/api/app/ai/gateway.py:24-26 | one application leaves no address exactly when, after the email pass, no would-be address lacks a boundary only because of a number next to it |
| Redaction.OnceIsEnoughWithoutNumbers | apps/api/app/ai/gateway.py:24-26 | for a prompt without phone numbers one application leaves no address |
| Redaction.OnceIsNotEnough | docs/adr/ADR-007-advisory-ai-boundary.md:16 | a text in which one application leaves an address |
| CircuitBreaker.LLMGateway.AssertCircuitClosed | apps/api/app/ai/gateway.py:61-66 | raises exactly while the open key lives, or with Redis down while the process's deadline lies ahead |
| CircuitBreaker.LLMGateway.AssertLocalCircuitClosed | apps/api/app/ai/gateway.py:68-76 | an expired deadline resets the process's counter |
| CircuitBreaker.LLMGateway.RecordFailure | apps/api/app/ai/gateway.py:78-95 | counts the failure where the state is kept and opens the circuit at the threshold |
| CircuitBreaker.LLMGateway.RecordSuccess | apps/api/app/ai/gateway.py:55-99 | resets both states, or with Redis down the process's |
| CircuitBreaker.LLMGateway.Suggest | apps/api/app/ai/gateway.py:101-136 | one call checks, then records its outcome, and returns the redacted prompt with the text |
| CircuitBreaker.FailuresPerCooldown | apps/api/app/ai/gateway.py:61-99 | in any run of n workers, a stretch shorter than the cooldown without a success records at most threshold + n - 1 failures, with Redis up or with Redis down |
| CircuitBreaker.OpensOnlyOnThreshold | docs/adr/ADR-007-advisory-ai-boundary.md:20 | in any run, a call is turned away only after at least threshold consecutive failures |
| CircuitBreaker.RefusalIsOwed | apps/api/app/ai/gateway.py:61-95 | in any run, a call is turned away only less than a cooldown after a failure that was at least the threshold-th of its streak, with no success since; successes break a streak and, in Redis, a cooldown without a failure |
| CircuitBreaker.AdmitsAfterCooldown | apps/api/app/ai/gateway.py:61-95 | so once a full cooldown has passed since the last failure every call is let through, with Redis up or with Redis down |
| CircuitBreaker.OpeningStartsAfresh | apps/api/app/ai/gateway.py:68-95 | a circuit that has opened and lets a call through again turns none away before as many further failures as the threshold |
| CircuitBreaker.SuccessStartsAfresh | apps/api/app/ai/gateway.py:49-99 | nor does one that has just recorded a success, which clears both states where Redis is up and the process's where it is down |
| CircuitBreaker.BoundIsReached | apps/api/app/ai/gateway.py:61-99 | for every threshold and n, some run records exactly that many |
| AttachmentQuota.AttachmentService.ValidateAttachment | apps/api/app/services/communication_service.py:186-201 | name, emptiness, size, workspace and quota are checked in that order, each with an error of its own |
| AttachmentQuota.AttachmentService.AttachToMessage | apps/api/app/services/communication_service.py:203-243 | an admitted upload is stored under its message and committed, a refused one leaves nothing |
| AttachmentQuota.AttachmentService.AttachToNote | apps/api/app/services/communication_service.py:245-280 | the same under an internal note |
| AttachmentQuota.AnswerMeans | apps/api/app/services/communication_service.py:186-280 | an upload is refused for the first of six reasons that applies and admitted when none does, up to and including the greatest size and the full quota, and is stored under its name, type, size and parent |
| AttachmentQuota.ServeKeepsQuota | apps/api/app/repositories/communication_repo.py:126-162 | serving uploads one by one keeps the quota, loses no row, and stores only rows of an allowed size with exactly one parent |
| AttachmentQuota.InterleavingsAreSerial | apps/api/app/services/communication_service.py:186-280 | every interleaving of upload transactions stores the rows and gives the answers of serving them one by one in the order they were answered |
| AttachmentQuota.QuotaIsKept | apps/api/app/services/communication_service.py:192-200 | in every interleaving a workspace never exceeds its quota, or what it started with, and each new row has an allowed size and exactly one parent of its workspace |
| AttachmentQuota.LocksAreReleased | apps/api/app/services/communication_service.py:192-200 | each lock is held by an open transaction that can go on, and none is left when no transaction is open |
| RateLimit.AuthRateLimiter.CheckAndIncrement | apps/api/app/services/rate_limit_service.py:18-41 | both counters count every attempt, refused or not; where Redis fails before the first or between the two, the request passes with what was counted until then |
| RateLimit.LimitPerWindow | apps/api/app/services/rate_limit_service.py:25-41 | from the moment a key's counter has run out, at most the limit passes within one window |
| RateLimit.UnderTwiceTheLimit | apps/api/app/services/rate_limit_service.py:18-41 | over every trace, at most twice the limit less one passes per key in any half-open interval of the window's length |
| RateLimit.EveryAttemptCounts | apps/api/app/services/rate_limit_service.py:27-33 | while a window lasts its counter goes up by one for every attempt on the key, refused ones included, and its end does not move |
| RateLimit.RefusedIff | apps/api/app/services/rate_limit_service.py:18-41 | a request is refused exactly when the limiter is on, Redis answers, and this attempt takes the address or the account over its limit; switched off or with Redis failing it passes |
| RateLimit.BoundIsReached | apps/api/app/services/rate_limit_service.py:18-41 | some trace lets exactly that many pass |
| SuggestionWindow.AIAssistService.Suggest | apps/api/app/services/knowledge_service.py:72-125 | a call stores one suggestion, or nothing if kind, ticket, limit or model refuse |
| SuggestionWindow.CallIsTwoSteps | apps/api/app/services/knowledge_service.py:86-125 | such a call is one check and one commit or failure of the concurrent model |
| SuggestionWindow.SuggestionsPerMinute | apps/api/app/repositories/knowledge_repo.py:53-85 | in every run of n workers no closed sixty seconds hold more than limit + n - 1 suggestions of a workspace, so with one worker no more than the limit |
| SuggestionWindow.RefusedExactlyWhenFull | apps/api/app/services/knowledge_service.py:86-88 | in every run a check is refused exactly when the sixty seconds up to it hold the limit, of that workspace's suggestions alone |
| SuggestionWindow.SuggestsIff | apps/api/app/services/knowledge_service.py:72-115 | a call stores its suggestion exactly when the kind is one of the three, the ticket is the workspace's, the sixty seconds up to the check hold fewer than the limit, and the model answers |
| SuggestionWindow.BoundIsReached | apps/api/app/services/knowledge_service.py:86-115 | for every positive limit and n, some run stores exactly that many |
| AuthSessions.AcceptedAtMostOnce | apps/api/app/services/auth_service.py:151-164 | over any run, refresh accepts a token at most once |
| AuthSessions.AuthService.PerformAll | apps/api/app/services/auth_service.py:113-178 | signing in, refreshing and logging out in turn leaves exactly the rows of the run |
| AuthSessions.RevokedForGood | apps/api/app/repositories/session_repo.py:38-41 | a revoked session is inactive at every instant of every continuation |
| AuthSessions.AcceptedBeforeExpiry | apps/api/app/models/session.py:28-37 | over any run, refresh accepts a token exactly while it is unrevoked, its user active and the configured days since it was issued not yet over, given a fresh new token |
| AuthSessions.EveryRevocationHadItsCall | apps/api/app/repositories/session_repo.py:38-41 | over any run, a revoked session was revoked by a refresh or a logout with its token, and is dated then |
| AuthSessions.SignsInIff | apps/api/app/services/auth_service.py:113-149 | signing in succeeds exactly for a known, active user with the right password; a failure opens no session and is logged unless the account is deactivated |
| AuthSessions.AuditCountsSessions | apps/api/app/services/auth_service.py:129-149 | over any run the audit trail holds exactly one successful login for each session of a user |
| AuthSessions.OneActivePerLogin | apps/api/app/services/auth_service.py:151-164 | at any instant at most one session that descends from a login is active, and it belongs to the login's user |
| AuthSessions.RefreshHandsOver | apps/api/app/services/auth_service.py:161-164 | an accepted refresh puts a new live token, of the same login and with a full lifetime, in place of the old one, and touches no other session |
| AuthSessions.LogoutEndsLineageIff | apps/api/app/services/auth_service.py:166-178 | logging out ends a lineage for good exactly when the token is its live one or it had none |
| AuthRaces.RefreshIsTwoSteps | apps/api/app/services/auth_service.py:151-164 | a refresh on its own is a lookup and a rotation of the concurrent model |
| AuthRaces.AcceptedAtMostNTimes | apps/api/app/services/auth_service.py:151-164 | when n workers refresh at once, a token is accepted at most n times, so once with one worker |
| AuthRaces.AdmittedBeforeExpiry | apps/api/app/services/auth_service.py:151-159 | however refreshes overlap, a lookup lets a worker go on exactly before the expiry the token was issued with, unrevoked and for an active user |
| AuthRaces.BoundIsReached | apps/api/app/services/auth_service.py:151-164 | for every n, n overlapping refreshes of an active token can all be accepted and leave n live sessions |
| AuthRaces.SessionsAreUnbounded | apps/api/app/services/auth_service.py:151-164 | with two workers or more, refreshes alone can turn the one session of a login into any number of live ones |
| WorkspaceSlugs.SlugifyIsNormalForm | apps/api/app/repositories/workspace_repo.py:9-11 | slugify yields a slug of every name, leaves exactly the slugs alone, and is idempotent |
| WorkspaceSlugs.SlugJoinsWords | apps/api/app/repositories/workspace_repo.py:9-11 | a slug is the alphanumeric words of the lowered name, in order, joined by single hyphens, or "workspace" if there are none |
| WorkspaceSlugs.AlphabetIsKept | apps/api/app/repositories/workspace_repo.py:9-11 | every lower-case letter and digit is kept |
| WorkspaceSlugs.CandidateIsInjective | apps/api/app/repositories/workspace_repo.py:29-31 | no two suffixes give the same candidate |
| WorkspaceSlugs.CandidateIsNumbered | apps/api/app/repositories/workspace_repo.py:25-31 | the slugs tried are the base, then the base with a hyphen and 2, 3 and so on, written in decimal |
| WorkspaceSlugs.OneIsFirstFree | apps/api/app/repositories/workspace_repo.py:25-35 | whatever is taken, exactly one candidate is the first free one, no later than one past the number of taken slugs |
| WorkspaceSlugs.WorkspaceRepository.Create | apps/api/app/repositories/workspace_repo.py:25-35 | the loop ends at the first free candidate, so slugs stay unique and well formed |

## Left out

- Tickets.TicketService.Create: queue, category, subject and description, with their validation, are not part of the model.
- Tickets.TicketService.Update: of the fields an update may change, only the priority is modelled, which alone the SLA clock reads.
- Tickets.CommunicationService.CreateConversation: creator, subject and external thread reference are left out.
- AttachmentQuota.AttachmentService.AttachToMessage: the audit row and the hash of the content are left out, and the content is its size.
- AttachmentQuota.AttachmentService.AttachToNote: the same.
- SuggestionWindow.AIAssistService.Suggest: the audit row and the kind, prompt hash and text of the stored suggestion are left out.
- Routers, schemas, middleware, authorization, logging, metrics and the user interface: wiring without state of its own.
- Support tasks, queues, categories, tags, the client records and the knowledge base: single-branch facts.
- ensure_system_roles, register_user and bootstrap_owner: they fill lookup tables and would add only easy members.
- list_policies: it attaches default policies and rows and flushes them, but nothing commits, so the request ends by losing them; it is not a step of the runs.
- The ordering of listings: `Portal.ListTickets` answers with a map, so the order of the tickets is not captured.
- Portal.PortalService.AddMessage: creator and subject of the conversation it may open are left out.
- Portal.PortalService.CreateTicket: subject and description of the ticket are left out.
- Notifications are a multiset and carry no text, and marking one as read is left out.
- SQL: tables are maps and sequences, listings without an order come in any order, and uniqueness, rollback and the row lock are modelled explicitly.
- JWT, bcrypt, SHA-256 and token generation: a token stands for its hash, and an access token for its subject.
- Audit rows: the actor, the result and the metadata other than the ends of a transition are left out; an audit row's JSON either does not parse or is an object; a document of another type is not part of this model.
- The advisory lock of the scheduler: calls of the service layer are serialized instead.
- CircuitBreaker.LLMGateway.RecordFailure: the commands of one call to Redis are one step, and Redis is up or down for a whole run; if two workers interleave command by command, or Redis comes and goes, the bound is not claimed.
- Portal.OwnMessageShows: requires that every stored message has its conversation, as in every reachable state (`Lifecycle.ReachableIsHealthy`).
- RateLimit.UnderTwiceTheLimit: counts the requests that both counters let through, not those that pass because Redis fails; increment and expiry are one step, and a crash between them would leave a counter without expiry.
- RateLimit.BoundIsReached: stated for an address whose limit is no higher than the account's, since the smaller limit decides.
- AttachmentQuota.AttachmentService.ValidateAttachment: what `_safe_filename` makes of a name is an input.
- WorkspaceSlugs.SlugifyIsNormalForm: what lower-casing does beyond ASCII is a parameter, and the length limit of the slug column is left out.
- Redaction.EndFinds: which characters beyond ASCII are digits or word characters is a parameter, so the result holds for every Unicode version.
