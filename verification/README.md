# Verified model of the campaign delivery pipeline

A Dafny model of a WhatsApp campaign platform: campaigns with uploaded recipients, the worker tasks
that send to them, the webhook stream that reports back, tenants with a monthly quota, and the three
algorithms these lean on (the Redis rate limiter, the retry loop, the template cache sync).

`dafny verify dfyconfig.toml` checks everything.

## How the model is built

**Tables and transactions.** `Rows` holds the tables as a value, `Tables`. `Delivery` defines what each
transaction commits, as a function from one committed state to the next, and collects them as `Step`,
`Apply` and `Run`: a run is any finite list of steps (tenants created, patched and deleted, template syncs, campaign
creation, uploads, task executions, direct sends, webhook effects, pause, cancel) in any order. A task may run any number
of times; a transaction that raises, or whose worker is lost before commit, is a step that changes nothing.

**The code's own form.** `Sessions` has a `Database` and a `Session` with commit, rollback and a list of rows
not yet flushed. The service modules (`SendTask`, `MessageService`, `CampaignService`, `WebhookService`,
`TenantService`, `TemplateService`) carry each operation out on a session, assignment by assignment and loop by loop as
the source does, and are proved to commit exactly what `Delivery` and `TemplateMerge` define. `RateLimiter`,
`Retry` and `MetaClient` do the same for their own state.

**What is proved of runs.** The remaining modules state properties of the step functions over every run from
empty tables, or from any state that satisfies the invariant:

- `Agreement`: recipients and messages tell the same story; nobody returns to the queue; one send per recipient.
- `Conservation`: recipient accounting, `sent_count`, tenant usage, and how far usage can pass the quota.
- `Counters`: the roll-up counters count transitions exactly; what completion does and does not mean.
- `Lifecycle`: campaign states and `completed_at`.
- `Interleaving`: the order of webhook updates of different messages does not matter.
- `Events`: one webhook event, complete or aborted, as a run of single steps.
- `Replay`: what a list of updates leaves in the message rows and adds to every campaign's counters, and what the same updates, the retry of an aborted event or a second stored copy do on top.
- `Completion`: when a campaign has counted everyone, read off its rows and off the updates a run receives.
- `Dispatch`: the task queue and fan-outs in flight, around pause and cancel.
- `StatusFold`, `BodyParameters`, `CsvUpload`, `TemplateMerge`: closed forms of one row's fold, the parameter sort, the upload loop, the keyed merge of a template list.
- `StatusWords`, `NumberedVariables`, `UploadedRows`, `CommittedRows`, `TemplateWords`: what the operations write, column by column, read off the input's own words and fields, and exactly when they write it.
- `LimiterLoss`, `LimiterReturns`, `LimiterBursts`, `LimiterHolds`: the rate limiter when a caller is lost, when grants return late, and the runs that reach each of its bounds.
- `Scenarios`: concrete runs that show where the code departs from its documentation.

## Assumptions

- Transactions are serial and atomic. The source takes no row locks; concurrent writes of one row are not modelled.
- Primary keys are fresh: `nextId` stands for uuid4. Meta's message ids are not assumed distinct: the column
  is not unique (src/models/message.py:68), and an update whose id matches two messages raises, as in the source.
- Webhook payloads have the types the source expects, except that a timestamp may fail to parse. One clock
  reading serves one event.
- `start` as committed always raises (src/services/campaign_service.py:163-177). The step `Start` is an
  environment step, marked so in `Delivery`: it applies the guards of lines 165-168 and sets `running`.
- Phone normalisation, Meta's replies, limiter outcomes inside a send, clocks, jitter, the token cipher and the
  lookup of a default tenant are parameters; words that the source upper- or lower-cases are given as that leaves them.
- A parsed CSV row names a column once, being a dictionary; new ids are larger than those there are, in every reachable state (`IdsAreHandedOut`).
- A recipient's variables are taken in the order the row yields them; what order a `jsonb` column gives them back in is the database's.
- A call of the rate limiter that meets a Redis error sends no further command and is let through; the model lets any call stop
  at any point, and the bounds count the calls that their counters granted. `reset_recipient` is not called.

## Where the code and its documentation differ

The model follows the code.

- The rate limiter calls itself a token bucket (src/services/rate_limiter.py:1). It is a pair of fixed windows, each anchored at its
  first INCR: in k windows it admits up to one call less than k+1 limits (`RateBound`), and some run does (`RateBoundIsReached`). That is when
  calls are counted; grants can return all at once, long after (`GrantsCanReturnTogether`), and are bounded by how long a call may take (`ReturnBound`, `ReturnBoundIsReached`).
  A caller lost between INCR and EXPIRE leaves a counter that never expires (`OrphanedCounterNeverExpires`): the phone number then gets what is left of one limit, ever (`OrphanAdmitsTheRest`, `OrphanBoundIsReached`).
- Cancelling promises that no further sends will happen (src/api/v1/campaigns.py:152). The task never looks at the campaign's
  status: a queued recipient is still sent to exactly when a task for it was on its way (`StoppedCampaignSendsPending`, `SentAfterCancellation`).
- Completion is meant to say that everyone is done (src/services/webhook_service.py:285). A recipient that is delivered to and then reads counts twice, so a
  campaign can complete with a recipient still queued (`CompletedWithOneStillQueued`). It has counted everyone exactly when each of its recipients has a message
  with a time of delivery, reading or failure (`EveryoneCountedIff`), and always when no message is reported more than one counted change (`OneCountedEachCountsEveryone`).
- Only status updates complete a campaign. One whose counters come to cover its total by a refusal at send time stays running (`CoveredButStillRunning`) until an update
  reaches it while it runs, and exactly then completes (`CoveredCompletesIff`); if Meta refused all of its sends, never (`AllRefusedNeverCompletes`, `AllRefusedIsReached`).
- A second delivery of the same updates is not harmless to the counters. An event that raises part of the way keeps its earlier effects and stays unprocessed; and
  each delivery by Meta is stored as a row of its own (src/api/v1/webhooks.py:56-67), which the first row's mark does not guard. Either way the updates count again
  unless every message of the campaign was reported one status throughout (`AbortedEventInflates`, `SecondCopyInflates`, `AbortedEventCountsTwice`, `SecondCopyCountsTwice`);
  at any later time, unless the repeated statuses start no counted move from where the recipients then stand (`DeliveryCountsIff`).
- A variable whose name ends in digits that `isdigit()` accepts and `int()` refuses makes the send raise (`RenderRaises`).
- A template that is new to the cache and listed twice undoes the whole sync, and so does a null language (`SyncFromMeta`, `RepeatedEntry`).
- The slug of a deleted tenant passes the check before a new tenant is created and is then refused by the unique column (`TenantService.Create`).
- A direct send that Meta rejects records the failure and then loses the record in the rollback (`Send`).

## Model

| member | source | states |
|---|---|---|
| Agreement.TwoTableAgreement | src/tasks/send_message_task.py:56-145 | in every committed state of every run a recipient has as many messages as attempts, none while queued and one afterwards, with its own id, phone and mapped status; `sending` and `skipped` are never committed |
| Agreement.StepKeepsInv | src/tasks/send_message_task.py:42-145 | every single transaction keeps row links and the agreement of recipients with messages |
| Agreement.RunKeepsInv | src/database.py:53-64 | so does every run of transactions, rollbacks and lost workers included |
| Agreement.OwnerIsSole | src/services/webhook_service.py:242-245 | a message that belongs to a recipient is its only one and mirrors its status and id |
| Agreement.NoResurrection | src/services/webhook_service.py:213-218 | no run returns a recipient to the queue, and one refused by Meta is never changed again |
| Agreement.SendAtMostOnce | src/tasks/send_message_task.py:56-60 | after the first commit of a send task, running it again at any later point of any run changes nothing |
| Conservation.RecipientConservation | src/tasks/send_message_task.py:126-140 | `total_recipients` is the number of rows, split exactly into queued, accepted and refused; `sent_count` is the accepted part and at most the total |
| Conservation.StepUsage | src/services/tenant_service.py:136-145 | one step moves a tenant's usage by exactly the billed messages it adds, and a direct send only below the limit |
| Conservation.UsageConservation | src/services/tenant_service.py:140-145 | over every run usage grows by the number of committed outbound messages with an id, across direct and campaign sends |
| Conservation.QuotaBound | src/services/message_service.py:83-84 | from any state, with a fixed limit, usage passes the limit, or where it started if past it, by no more than the number of campaign messages the run sends |
| Conservation.QuotaHardWithoutCampaigns | src/services/tenant_service.py:136-138 | from any state a run without campaign sends leaves usage within the limit, or where it was if past it |
| Counters.CounterExactness | src/services/webhook_service.py:265-283 | delivered, read and failed counters grow by exactly the number of moves into that status from another one, refusals at send time included |
| Counters.CompletionLaw | src/services/webhook_service.py:285-293 | after an update reaches a running campaign it is completed exactly when the counters cover its recipients, else still running |
| Counters.LogLength | src/services/webhook_service.py:276-283 | the three counters together grow by the length of the log of counted moves |
| Counters.RunKeepsDone | src/services/webhook_service.py:285-293 | in every reachable state the counters of a completed campaign cover its total |
| Counters.CompletedCountsEveryone | src/services/webhook_service.py:285-293 | if nobody made two counted moves, a completed campaign has counted every recipient exactly once and none is queued |
| Completion.EveryoneCountedIff | src/services/webhook_service.py:225-293 | in every reachable state a campaign has counted every recipient exactly when each recipient's message has a time of delivery, reading or failure |
| Completion.MarkedIffLogged | src/services/webhook_service.py:225-283 | over any run from a consistent state a recipient's message has such a time exactly if it had one before or the run counted the recipient |
| Completion.OneCountedEachCountsEveryone | src/services/webhook_service.py:276-293 | in a run whose updates report no message id more than one change into a counted status, a completed campaign has counted every recipient exactly once |
| Counters.CompletedIff | src/services/webhook_service.py:285-293 | a campaign is completed at the end of a run exactly when some update reached it while running and left its counters covering its total |
| Counters.CoveredCompletesIff | src/tasks/send_message_task.py:126-131 | a campaign whose counters already cover its total completes in a run exactly when some update reaches it while it is running, so never by a refusal |
| Counters.AllRefusedNeverCompletes | src/tasks/send_message_task.py:119-131 | a campaign whose recipients were all refused at send time never completes in any run |
| Lifecycle.StepEvolves | src/services/campaign_service.py:163-200 | which status, time and total changes each step may make to a campaign |
| Lifecycle.StepCreates | src/services/campaign_service.py:63-70 | only creation brings a campaign into being, in draft or scheduled, with no completion time |
| Lifecycle.TerminalIsForever | src/services/campaign_service.py:193-200 | completed and cancelled are absorbing; their completion time and total never change again |
| Lifecycle.CompletionTimeIffDone | src/services/webhook_service.py:291-293 | `completed_at` is set exactly in the two final states, in every run; `failed` is never reached |
| Lifecycle.NothingStarts | src/services/campaign_service.py:163-177 | without the environment's start every campaign stays in draft, scheduled or cancelled |
| Interleaving.OrderIndependence | src/services/webhook_service.py:203-293 | any two interleavings of the same per-message streams, at any clock readings, leave the same tables up to clock-valued columns, completion included |
| Interleaving.UpdatesCommute | src/services/webhook_service.py:247-293 | two updates of different messages commute exactly, counters and completion included |
| Interleaving.SameUpdated | src/services/webhook_service.py:220-224 | processing time influences clock-valued columns only |
| Events.EventIsRun | src/services/webhook_service.py:115-142 | processing an event, complete or aborted, is a run of single steps |
| Events.EventKeepsInv | src/services/webhook_service.py:115-142 | an event keeps the invariant wherever it stops |
| Events.ProcessedOnce | src/services/webhook_service.py:119-137 | an event row is marked processed exactly when none of its actions raises, and then processing that row again changes nothing |
| Replay.RowClosedForm | src/services/webhook_service.py:203-240 | every column of the message row that any list of updates leaves in the table: last recognised status, first time of each kind unless one was there, errors only of the update that set the failure time, last pricing; updates that are skipped, unreadable or for others play no part |
| Replay.ReplayLeavesRows | src/services/webhook_service.py:203-240 | any list of updates that comes again, at other clock readings, leaves every message row as the first pass left it |
| Replay.PassCounts | src/services/webhook_service.py:265-283 | any list of updates adds to a campaign's counters exactly the counted moves of each of its messages' own streams |
| Replay.PassMovesRecipient | src/services/webhook_service.py:247-266 | and leaves each recipient at the last status reported for its own message |
| Replay.ReplayInflatesUnlessSteady | src/services/webhook_service.py:203-293 | any list of updates that comes again never lowers a campaign's counters, and leaves them alone exactly when each message of the campaign was reported one status throughout |
| Replay.DeliveryCountsIff | src/services/webhook_service.py:115-142 | any delivery, in any reachable state, never lowers a campaign's counters, and leaves them alone exactly when the statuses it reports start no counted move from where the recipients stand |
| Replay.SecondDelivery | src/services/webhook_service.py:115-142 | a second delivery of a payload right after the first, whatever became of the first, carries out a first part of what the first did, all of it if no inbound message has the id of an update, and leaves the counters alone exactly when no message's repeated statuses start a counted move; if all is repeated, exactly when each message was reported one status |
| Replay.AbortedEventInflates | src/services/webhook_service.py:138-142 | all of that for an aborted event that is delivered again |
| Replay.SecondCopyInflates | src/api/v1/webhooks.py:56-67 | all of that for a second copy of an event, stored as a new row |
| Dispatch.StrandedStaysQueued | src/tasks/send_campaign_task.py:36-51 | after a pause or cancellation, until the campaign is in fact started again, a queued recipient with no task on the way is never sent to |
| Dispatch.OverNeverStarts | src/services/campaign_service.py:165-166 | a campaign that is over is never started again, whatever is requested |
| Dispatch.StoppedCampaignSendsPending | src/api/v1/campaigns.py:149-163 | a queued recipient of a stopped campaign can still be sent to exactly when a task for it was queued or in a fan-out in flight |
| Dispatch.WithoutStartNothingIsSent | src/services/campaign_service.py:170-177 | as built, no task is ever queued, no campaign leaves draft, scheduled or cancelled, and every `sent_count` stays 0 |
| Dispatch.MoveIsStep | src/tasks/send_campaign_task.py:29-53 | each move of queue and workers is one step on the tables or none |
| Scenarios.CompletedWithOneStillQueued | src/services/webhook_service.py:285-293 | a run from empty tables in which a campaign of two completes while one recipient is queued |
| Scenarios.SentAfterCancellation | src/tasks/send_message_task.py:50-60 | a task queued before a cancellation sends after it |
| Scenarios.CoveredButStillRunning | src/tasks/send_message_task.py:119-131 | one recipient delivered to and the other refused: the counters cover the campaign and it stays running |
| Scenarios.AllRefusedIsReached | src/tasks/send_message_task.py:119-131 | a run that ends with every recipient of a running campaign refused |
| Scenarios.AbortedEventCountsTwice | src/services/webhook_service.py:138-142 | a run with an event that aborts, and whose second delivery raises the counters again |
| Scenarios.SecondCopyCountsTwice | src/api/v1/webhooks.py:56-67 | a run with an event that is processed and marked, and whose second stored copy raises the counters again |
| BodyParameters.StableSortProperties | src/tasks/send_message_task.py:78-86 | the sort returns a permutation in key order that keeps the order of equal keys |
| BodyParameters.StableOrderUnique | src/tasks/send_message_task.py:79-82 | no other sequence has these three properties |
| BodyParameters.VariableOrder | src/tasks/send_message_task.py:78-86 | what is rendered, or that rendering raises, is the same for every order of a recipient's variables exactly when rendering raises or those whose names sort alike hold the same text |
| BodyParameters.RenderRaises | src/tasks/send_message_task.py:81 | building the parameters raises exactly when a name ends in digits, some of which or too many of which `int()` cannot read |
| BodyParameters.SuperscriptColumnRaises | src/tasks/send_message_task.py:81 | such a name |
| NumberedVariables.NumbersDecide | src/tasks/send_message_task.py:78-86 | the parameters sent are the texts of all variables, a smaller number first, a number below 999 before every name without one and such a name before a number above 999, and equal rank in the given order |
| NumberedVariables.NumberedSortsAt | src/tasks/send_message_task.py:81 | a name whose last part is the decimal text of n, with leading zeros or not, of at most 4300 digits, sorts at n |
| NumberedVariables.UnnumberedSortsAt | src/tasks/send_message_task.py:81 | a name whose last part is empty or holds a character that is no digit sorts at 999 |
| CsvUpload.UploadDeduplicates | src/services/campaign_service.py:111-143 | the inserted recipients come, in row order, from exactly the rows that are the first with their phone, with those rows' variables |
| CsvUpload.UploadedPhones | src/services/campaign_service.py:127-130 | the phones of one upload are pairwise distinct and none that a row yields is missing |
| UploadedRows.UploadStores | src/services/campaign_service.py:111-146 | the new recipients correspond one to one, in order, to the CSV rows that are first with their phone: each is queued, not yet attempted, with that phone and as variables exactly the row's cells outside the phone column that are not empty, in column order; earlier recipients stay and the total grows by their number |
| UploadedRows.SkipsAreRead | src/services/campaign_service.py:117-129 | the reasons are those of the other rows, in order, numbered from 1: a blank phone cell, one that the library refuses, or a phone of an earlier row |
| UploadedRows.PhoneColumnIsFirst | src/services/campaign_service.py:99-107 | the phone column is the first called "phone" in any letter case, if there is one |
| UploadedRows.UploadIsRead | src/services/campaign_service.py:90-159 | all of that of one upload, and the report's numbers, with the first fifty reasons |
| CampaignService.InsertedOrSkipped | src/services/campaign_service.py:153-158 | every row read is either inserted or given a reason |
| CampaignService.ExamineRow | src/services/campaign_service.py:117-134 | the verdict on one row: kept with its variables, or the reason it is dropped |
| CampaignService.ReadUpload | src/services/campaign_service.py:111-144 | the upload loop yields the first row of each phone, a reason for each other row, and their number |
| CampaignService.UploadRecipients | src/services/campaign_service.py:90-159 | returns exactly for a draft or scheduled campaign and a header with a phone column; then commits the rows that are first with their phone, cell by cell, and the new total, with the report of rows parsed, inserted and skipped; else changes nothing |
| CampaignService.Create | src/services/campaign_service.py:41-74 | creates, scheduled or else as a draft and with zero counters, exactly when the tenant is live and the cache holds the template as approved; which error otherwise |
| CampaignService.StartRequest | src/services/campaign_service.py:163-177 | raises in every case and changes nothing |
| CommittedRows.StartMoves | src/services/campaign_service.py:163-168 | the environment's start passes exactly the guards of the source and sets the status only |
| CampaignService.Pause | src/services/campaign_service.py:179-185 | pauses exactly a running campaign, and changes nothing but its status |
| CampaignService.Resume | src/services/campaign_service.py:187-191 | raises in every case and changes nothing |
| CampaignService.Cancel | src/services/campaign_service.py:193-200 | cancels and sets the time, or leaves a campaign that is over as it is |
| CampaignService.QueuedSnapshot | src/tasks/send_campaign_task.py:29-46 | the ids a fan-out works from: each queued recipient of a running campaign once, nothing otherwise |
| SendTask.SendRecipient | src/tasks/send_message_task.py:42-145 | how one send ends, check by check, and the columns of message, recipient, campaign and tenant that each end commits, or that everything is rolled back |
| CommittedRows.SendCommits | src/tasks/send_message_task.py:42-145 | a sent or refused recipient's message goes to its phone from the tenant's number with the campaign's template and the sorted parameters; status, id, times, error, attempts and counters of each row, and nothing else |
| SendTask.RecordRefusal | src/tasks/send_message_task.py:119-131 | the message, recipient and campaign columns a permanent refusal changes and nothing else |
| SendTask.RecordSuccess | src/tasks/send_message_task.py:133-145 | the message, recipient, campaign and tenant columns a success changes and nothing else |
| MessageService.Send | src/services/message_service.py:82-194 | a text or template send that returns has committed its message, from the tenant's number to the requested one, with Meta's id, as sent, and one more use of the quota; the first failing check names the error, and a raise leaves every table unchanged |
| CommittedRows.DirectCommits | src/services/message_service.py:82-194 | the same of the step that runs are made of |
| TenantService.IncrementUsage | src/services/tenant_service.py:140-145 | adds one to the tenant's usage, nothing for a missing tenant |
| TenantService.Create | src/services/tenant_service.py:89-116 | creates a tenant with the requested columns, active and unused, exactly when no tenant, deleted ones included, has the slug; the check before the insert catches the live ones |
| TenantService.Update | src/services/tenant_service.py:118-128 | sets the fields of a live tenant that are present, the token encrypted, and nothing else |
| TenantService.SoftDelete | src/services/tenant_service.py:130-134 | marks a live tenant deleted and inactive |
| WebhookService.Process | src/services/webhook_service.py:115-142 | one delivery of an event, with rows pending until the flush, commits exactly the effects before the first failure, template changes, inbound rows and the event's mark |
| WebhookService.ChangeTemplate | src/services/webhook_service.py:295-323 | a template status change reaches only a cached template of the event's tenant, and only with a known status |
| CommittedRows.TemplateEventMeans | src/services/webhook_service.py:295-323 | a template event gives the status named by pending, approved, rejected, paused or disabled to the one cached template it names, whatever field names it, and otherwise changes nothing |
| WebhookService.ApplyStatusUpdate | src/services/webhook_service.py:203-245 | one status update on message, recipient and campaign, or a raise that changes nothing, and exactly when it raises |
| StatusWords.WordsMean | src/services/webhook_service.py:38-44 | for the one message with the id: each of sent, delivered, read, failed and deleted sets that status, stamps its own column with the reported time or the clock if it was empty, carries it to the recipient and adds 1 to its own counter if the recipient's status changes; any other word changes nothing |
| StatusWords.RaisesWhen | src/services/webhook_service.py:203-224 | an update raises exactly when it has an id and one of the words, and two messages have the id or one has and the timestamp does not parse |
| WebhookService.PropagateStatus | src/services/webhook_service.py:247-293 | carries a status over to the recipient and rolls it up |
| WebhookService.FindMessage | src/services/webhook_service.py:213-218 | finds the one message with an id, none, or raises when two have it |
| WebhookService.StopsAtFirstRaise | src/services/webhook_service.py:115-142 | stopping the nested loops at an exception means doing exactly the actions before the first that raises |
| CommittedRows.ChangeAsksFor | src/services/webhook_service.py:144-156 | a change of messages looks up its tenant, then saves its inbound messages, then applies its statuses, each in order |
| CommittedRows.ActionsInOrder | src/services/webhook_service.py:122-133 | an event does its entries one after the other |
| CommittedRows.ChangesInOrder | src/services/webhook_service.py:122-133 | and the changes of an entry |
| CommittedRows.ResolveRaisesWhen | src/services/webhook_service.py:159-169 | the look-up of a tenant raises exactly when two live tenants have the phone number id |
| CommittedRows.InboundGoesTo | src/services/webhook_service.py:159-201 | an inbound message is stored as delivered, from its sender to the display phone or else the tenant's number, for the live tenant with the phone number id, else for the event's tenant, else not at all |
| CommittedRows.ClosedColumns | src/services/webhook_service.py:135-142 | the end of a processing marks the event with its time, or with the error only |
| CommittedRows.StoredColumns | src/services/webhook_service.py:73-88 | a delivery is stored as a new row of its own, unprocessed |
| WebhookService.FlushSaves | src/services/webhook_service.py:144-201 | inbound rows flushed after all updates end as if saved one by one |
| Sessions.Session.Commit | src/database.py:53-64 | the database becomes the session's view with its pending rows written |
| Sessions.Session.Rollback | src/database.py:41-50 | the session forgets everything it did |
| RateLimiter.RateBound | src/services/rate_limiter.py:39-59 | however concurrent calls interleave, stop or fail, the calls that their counters granted for a key, with their INCR in a span of k windows, number less than k+1 limits |
| LimiterBursts.RateBoundIsReached | src/services/rate_limiter.py:39-59 | for all limits and k some run from an empty store grants one call less than k+1 limits within k windows: of a phone number, and of a recipient if its burst fits into a second of the phone number |
| LimiterReturns.ReturnBound | src/services/rate_limiter.py:39-59 | if no granted call takes longer than d from its INCR to its return, the grants returning in a span of k windows number less than k+1 limits and one more for each window d reaches into |
| LimiterHolds.ReturnBoundIsReached | src/services/rate_limiter.py:39-59 | for all limits, k and e some run whose calls take up to e seconds reaches that bound for a phone number |
| RateLimiter.RunKeepsInv | src/services/rate_limiter.py:39-59 | store, histories and callers stay consistent command by command |
| RateLimiter.NoExpiryOnlyWhileCreating | src/services/rate_limiter.py:41-43 | in every reachable state a counter has no expiry exactly while its creator, and no other call, is between INCR and EXPIRE |
| LimiterLoss.OrphanedCounterNeverExpires | src/services/rate_limiter.py:41-43 | if that creator is lost, the counter never expires or shrinks whatever else happens |
| LimiterLoss.OrphanAdmitsTheRest | src/services/rate_limiter.py:41-46 | from then on, in any run, the calls still to come for the phone number that are not refused number at most what is left of one limit |
| LimiterLoss.FullOrphanRefuses | src/services/rate_limiter.py:44-46 | and once that counter has reached the limit every later call of every run is refused |
| LimiterBursts.OrphanBoundIsReached | src/services/rate_limiter.py:41-46 | for all limits a run in which a creator is lost and one call less than the limit is let in after it |
| LimiterReturns.GrantsCanReturnTogether | src/services/rate_limiter.py:39-59 | any number of calls for one phone number can be granted with no time between the first and the last |
| RateLimiter.Acquire | src/services/rate_limiter.py:30-62 | one call, as executed, is a run of its commands that ends as granted or refused |
| RateLimiter.Redis.SendIncr | src/services/rate_limiter.py:41 | INCR on a live, expired or absent counter |
| RateLimiter.Redis.SendExpire | src/services/rate_limiter.py:43 | EXPIRE, without effect on an absent counter |
| Retry.WithRetry | src/utils/retry.py:14-48 | ends like the first call that is not a retryable failure or like the last one allowed, with at most that many calls and one jittered sleep between two; the code after the loop is reached only with fewer than one attempt |
| Retry.SleepIs | src/utils/retry.py:38-39 | sleep number i is base times two to the i, or the cap if that is less, with the jitter's share of a quarter on top |
| Retry.TotalSleep | src/utils/retry.py:38-44 | the sleeps add up to at most 1.25 times the smaller of base (2^k - 1) and k caps |
| Retry.TotalSleepIsReached | src/utils/retry.py:38-44 | and to exactly that when no delay is capped and jitter is greatest |
| MetaClient.RetriedIffTransient | src/services/whatsapp_client.py:89-113 | an attempt is tried again exactly after no answer, or after a status of 500 or more whose code names neither the token nor a limit |
| MetaClient.AnswerMeans | src/services/whatsapp_client.py:69-113 | what an answer comes to: its JSON, or the error its status and code name, the token before a limit and a limit before the status class |
| MetaClient.Request | src/services/whatsapp_client.py:61-87 | at most three calls, each after a transient failure; a 4xx is called once; under 1.9 seconds of sleep |
| TemplateService.SyncFromMeta | src/services/template_service.py:69-128 | commits, exactly when no key new to the cache is named twice, no named entry has a null language and every written row fits its columns, else nothing; each listed template then holds the words of its last entry and every other one is as before; created and updated add up to the named entries and created is the growth of the cache |
| TemplateWords.SyncMeans | src/services/template_service.py:19-31 | after a sync a listed template is approved, rejected, paused or disabled exactly if its last entry says so in that word and else pending, marketing or authentication exactly if it says so and else utility, with that entry's components, the time of the sync and the last id given |
| TemplateWords.AcceptsMeans | src/models/template.py:35-60 | what can be committed: languages given, new templates once, names within 150 characters, languages within 20, ids within 64 |
| TemplateWords.CreatableAfterSync | src/services/campaign_service.py:57-61 | after a sync a campaign with a listed template is created exactly if its last entry says APPROVED |
| TemplateService.Flush | src/models/template.py:35-37 | writes all rows or, when a constraint or a column's width refuses one, none |
| TemplateMerge.MergeRows | src/services/template_service.py:86-119 | each listed row holds the mapped values of its last entry and the last id given; every other row, other tenants' included, is untouched |
| TemplateMerge.FlushIsMerge | src/services/template_service.py:79-121 | updating cached rows and inserting new ones is the entry-by-entry merge, or is refused for a repeated new key or a null language |
| TemplateMerge.RepeatedEntry | src/services/template_service.py:96-119 | in a list where only one key is named twice, that is no obstacle exactly when the template is already cached |
| TemplateMerge.SecondSync | src/services/template_service.py:69-128 | a second sync of the same list is accepted, adds no row and changes only the sync time of the listed rows |

## Left out

- Concurrent transactions on one row: the source has no locking, and the accounting theorems are about serial commits.
- At-least-once delivery at Meta: a send accepted by Meta and then lost before commit, or answered too late, may be accepted again; only committed rows are counted.
- RateLimiter.RateBound: does not count calls that fail open on a Redis error, which nothing limits, and does not cover `reset_recipient`, which deletes a counter.
- RateLimiter.Redis.SendIncr: a call's own view of the store; interference between its commands is in the machine that `RateBound` is about.
- CampaignService.QueuedSnapshot: the order in which the database lists the rows is arbitrary.
- Webhook signature checks, and the widths of columns other than those of the template cache.
- Paging of `get_templates`: it ends only if the server says so.
- Celery's retry limits: a task may run any number of times.
- HTTP routes, request schemas, middleware, API keys, the token cipher, contacts, health checks, pagination, migrations.
- The CSV parser and `phonenumbers`: rows are given, and normalisation is a partial function.
- Columns that no modelled branch reads back: campaign names, schedule times, template headers, raw message types.
