# Ticketing service: protocols and invariants

A Dafny model of the stateful protocols of a multi-tenant ticketing service, with proofs of what they promise over
every run. Rows and stored objects are fields of classes that methods update commit by commit, each method proved
against a function on values; the properties are lemmas about those functions and about runs, which are sequences of
atomic steps in any order, with crashes and failures between them.

| Files | What they cover |
|---|---|
| `JobRows`, `JobProtocol`, `JobSafety`, `JobLease`, `JobChains`, `JobOutcomes`, `Backoff` | One background job: claim under a lease, delivery guard, external send, retries, duplicate broker copies, worker deaths |
| `Outbox`, `OutboxProtocol`, `OutboxRuns` | The dispatcher loop, and any number of dispatchers that may die at any moment |
| `IdempotentCreation` | Read, insert, re-read after a conflict, refining a put-if-absent map |
| `KeyOrder`, `KeyPages`, `TicketPaging` | Keyset pagination while the table changes |
| `Calendar`, `TicketListing` | The listing as a client sees it, with cursor texts for keys |
| `Base64Url`, `CursorText`, `TicketCursor` | The page cursor, down to digits, offsets and base64 padding |
| `TicketKinds`, `TicketWorkflow` | Transition table, assignment and permission rules, audit log |
| `RefreshTokens` | Token rotation, replay and password change |
| `PermissionCache` | The cached permission set of a membership under interleaved readers and role changes |
| `RateLimiter` | The fixed-window limiter |
| `TenantRoles`, `TenantOwnership`, `TenantOutcomes`, `MembershipLife` | Tenants, memberships and role assignments, and the rules across the two services |
| `CachedPermissions` | The commands of those services and the permission cache, side by side |
| `Utf8`, `AttachmentUpload` | Streaming upload, incremental decoding, all-or-nothing storage |
| `Common` | Options, text helpers, the clock's resolution |

Four results are worth knowing beforehand.

- Email safety does not rest on the lease. Nothing in `JobSafety` compares the lease with a time limit; the locked
  delivery row and its unique job id are enough.
- A finished job row is final exactly when `background_job_hard_time_limit_seconds` is below
  `background_job_lease_seconds`. The defaults, 75 and 120, satisfy this, but `core/config.py` does not validate it, and
  the commits at the end of an execution do not look at the lease.
- The limiter lets at most `2 * limit - 1` requests through in any span of one window's length, and that is reached. The
  wait it reports is rounded to the nearest second; it is too short exactly when more than a second is left and the part
  past whole seconds is below half a second, but not zero.
- A cached permission set is boundedly stale always. Once a role change and its delete went through, look-ups give the
  new set until the next role change if and only if every reader then between its query and its store holds the new set
  already; if the delete failed, a look-up must also have found nothing or the new set before. Nothing in the code
  establishes this, so a role change can stay without effect until the entry expires, is evicted or is deleted again.

Time is one clock in whole microseconds (milliseconds in `RateLimiter`, as the store expires keys). Calls that can
fail, such as the mail server, the broker, the cache, the disk or a commit, take their outcome as a parameter or a step,
so every statement covers all outcomes. Row locks with a fresh read, atomic commits and unique constraints are taken as
the database's contract.

## Model

| member | source | states |
|---|---|---|
| JobSafety.AtMostOneOpenSend | src/ticketing/tasks/execution.py:110-180 | In every interleaving of workers, crashes, expired leases and duplicate copies: send calls started are at most one plus those that raised with the failure committed, every send but the last is such a call, and there are no more sends than job attempts |
| JobSafety.NoSendAfterSealed | src/ticketing/tasks/execution.py:110-180 | Once a send returned, or ended with an outcome that no worker still within its time limit is left to learn, no continuation of the run starts another send |
| JobSafety.DeathInSendSeals | src/ticketing/tasks/execution.py:150-171 | A worker whose time limit passes inside its send has sealed the mail at that moment, before anyone notices its death |
| JobSafety.SucceededMeansSent | src/ticketing/tasks/execution.py:160-180 | An email job that reads succeeded had exactly one send return, all earlier ones having raised with the failure recorded, and its delivery row is sent with a time |
| JobSafety.DeliveryAttemptsBounded | src/ticketing/tasks/execution.py:93-102 | Sends are at most delivery attempts, these at most job attempts, these at most the limit; without a delivery row nothing was sent |
| JobSafety.StepKeepsSafe | src/ticketing/tasks/execution.py:54-180 | Every clock reading, commit, send start, send end, fault and crash keeps the invariant over job row, delivery row and all workers |
| JobSafety.RunKeepsSafe | src/ticketing/tasks/execution.py:54-180 | So does every run from a state that satisfies it |
| JobSafety.ReachedIsSafe | src/ticketing/tasks/execution.py:54-180 | Every state reached from a new job satisfies it |
| JobSafety.RunAdvancesRow | src/ticketing/tasks/execution.py:101-107 | No run rewrites the fixed columns, lowers the attempt count or changes a start time once set |
| JobOutcomes.FailureHasItsReason | src/ticketing/tasks/execution.py:216-250 | In every run a failed job says why, and rightly: for want of attempts, or for a retryable failure, only with every attempt used; as invalid or ambiguous only for an email without or with its payload; never for a delivery row that disappeared |
| JobOutcomes.RunKeepsReasoned | src/ticketing/tasks/execution.py:54-250 | Every run keeps the reasons of the row and of every worker about to fail |
| JobOutcomes.UndisturbedSendReturns | src/ticketing/tasks/execution.py:54-180 | An execution whose mail may go out, left alone, the server taking the mail, goes step by step through claim, guard, send and final commit to exactly these rows |
| JobOutcomes.UndisturbedSendRaises | src/ticketing/tasks/execution.py:54-250 | The same with the server raising: the job comes back after its delay exactly when attempts are left, and has failed otherwise |
| JobOutcomes.UndisturbedWithoutSend | src/ticketing/tasks/execution.py:54-231 | The executions that send nothing, an email without payload, with its mail out or with its outcome unknown, and an export, end in exactly these rows |
| JobOutcomes.AnythingMayHappen | src/ticketing/tasks/jobs.py:36-70 | Death at any stage with the copy put back or lost, an exception at any stage outside the send, the passing of time, further messages: the model leaves none of them out |
| JobOutcomes.TheDeadDoNothing | src/ticketing/tasks/jobs.py:36-45 | A worker past its hard limit, and a copy that is done, change nothing |
| JobLease.FinishedIsFinalIffLeaseOutlivesWorker | src/ticketing/tasks/execution.py:216-250 | A finished row is final in every continuation of every run if and only if the hard time limit is below the lease |
| JobLease.OverlapRewritesFinishedRow | src/ticketing/tasks/execution.py:216-223 | Without that, there is a run in which a worker whose lease expired overwrites the finished row |
| JobLease.LeaseGivesOneOwner | src/ticketing/tasks/execution.py:76-108 | With it, in every reachable state: lease set exactly when running, completion time exactly when finished, result exactly when succeeded, error exactly when retrying or failed, retrying only with attempts used and left; and at most one live worker, the one the row names |
| JobLease.StepKeepsFenced | src/ticketing/tasks/execution.py:76-108 | Every step keeps the fence, and none changes a finished row |
| JobLease.RunKeepsFenced | src/ticketing/tasks/execution.py:76-108 | Every run keeps it, and leaves a finished row as it is |
| JobChains.RedeliveryIsBounded | src/ticketing/tasks/jobs.py:50-61 | In every run a copy is put back, by leases it ran into and by failures of its own together, at most as often as the job was attempted, hence at most as often as the limit allows |
| JobChains.EveryReturnIsCounted | src/ticketing/tasks/jobs.py:50-61 | Exactly the claims that meet a lease and the retries with attempts left are counted, and nothing else but a death puts a copy back |
| JobChains.NoCopyMeetsALeaseTwice | src/ticketing/tasks/execution.py:85-92 | A copy deferred by a lease comes back strictly after that lease, by at most a second plus the time since its clock reading, and was never deferred by it before |
| JobChains.ClaimKeepsChained | src/ticketing/tasks/execution.py:76-108 | A claim keeps the accounting of deferrals, and a deferral raises the attempt number it is charged to |
| JobChains.RunKeepsChained | src/ticketing/tasks/execution.py:54-108 | Every run keeps that accounting |
| JobRows.RetryAfterOutlastsLease | src/ticketing/tasks/execution.py:90 | The reported wait in whole seconds strictly exceeds the remaining lease, by at most one second |
| JobRows.ClaimedExactlyWhen | src/ticketing/tasks/execution.py:76-108 | Which of the four answers a claim gets, as a condition on the columns, and every column of the row afterwards |
| JobRows.EndedByColumns | src/ticketing/tasks/execution.py:216-250 | Every column after success, failure and retryable failure |
| JobRows.BackgroundJobExecutor.Claim | src/ticketing/tasks/execution.py:76-108 | The row after a claim and the answer, for a missing or finished row, a live lease, exhausted attempts, and a granted claim |
| JobRows.BackgroundJobExecutor.MarkRetryableFailure | src/ticketing/tasks/execution.py:233-250 | The job is retried exactly when the remembered attempt number is below the limit, and has failed otherwise; the other columns and rows |
| JobRows.BackgroundJobExecutor.PassDeliveryGuard | src/ticketing/tasks/execution.py:110-148 | Delivery row and permission to send for each state of the guard; an unknown outcome is never resent |
| JobRows.BackgroundJobExecutor.ExecuteEmail | src/ticketing/tasks/execution.py:54-180 | One undisturbed execution, column by column: a send starts exactly when the payload is complete and no earlier outcome can be out; a raised send is retried exactly when attempts are left; the final job row and delivery row in every case, every other row unchanged |
| Backoff.RetryDelayShape | src/ticketing/tasks/execution.py:252-254 | Delays lie between base and cap, never shrink, start at the base and double below the cap |
| Outbox.OutboxDispatcher.DispatchOnce | src/ticketing/tasks/outbox.py:55-81 | A run tries exactly the oldest due rows up to the batch size, is not stopped by a failing publish, hands accepted ones to the broker in order, leaves all other rows unchanged, and returns the number of rows newly published |
| Outbox.BatchIsDue | src/ticketing/repositories/background_job.py:84-100 | The batch holds unlocked rows that are pending and whose time has come, oldest first by creation and id, none twice |
| Outbox.BatchIsOldest | src/ticketing/repositories/background_job.py:84-100 | It is as large as the number of such rows and the limit allow, and every such row left out is younger than every row taken |
| Outbox.FailedPublishBacksOff | src/ticketing/tasks/outbox.py:70-74 | A failed row stays pending, one attempt up, due again after a delay between base and cap that does not shrink with attempts |
| Outbox.AcceptedPublishIsFinal | src/ticketing/tasks/outbox.py:75-79 | An accepted row is published at the broker's instant, one attempt up, without an error |
| OutboxRuns.FailedRowIsLeftInPeace | src/ticketing/tasks/outbox.py:55-74 | A row whose publish failed is in no batch of any run that begins before the base delay has passed, whatever is submitted, published, committed or dies meanwhile |
| OutboxRuns.UndisturbedRunIsDispatchOnce | src/ticketing/tasks/outbox.py:55-81 | A run nothing interrupts, among any others in progress, leaves the rows as the loop does and one copy at the broker per accepted row |
| OutboxRuns.AnythingMayHappen | src/ticketing/tasks/outbox.py:55-81 | Submissions at any moment, the death of any run, and a publish that raises after its copy arrived are all in the model |
| Outbox.CountOfAccepted | src/ticketing/tasks/outbox.py:75-81 | The published count is the number of rows that went from pending to published |
| OutboxProtocol.NoJobLostOrInvented | src/ticketing/services/background_job.py:175-201 | Over all runs with any number of dispatchers dying anywhere: one message row per committed job, a published row has a copy at the broker, every copy names a committed job, and there is at most one copy more than those whose dispatcher could not commit them |
| OutboxProtocol.StepKeepsSafe | src/ticketing/tasks/outbox.py:55-81 | Submission, batch selection, each publish, commit and death keep the counts per job: copies are wasted ones, the published one and the one held by a live dispatcher |
| OutboxProtocol.RunKeepsSafe | src/ticketing/tasks/outbox.py:55-81 | Every run keeps them |
| IdempotentCreation.RefinesPutIfAbsent | src/ticketing/services/ticket.py:138-203 | Any interleaving of creation calls is equivalent to a sequential put-if-absent map executed in commit order: same rows, same answers, one object and one companion row per key |
| IdempotentCreation.UndisturbedCall | src/ticketing/services/ticket.py:120-203 | A call nothing interrupts does exactly what the sequential map does and tells its client so |
| IdempotentCreation.TheLoserGetsTheWinner | src/ticketing/services/ticket.py:186-203 | Of two calls under a new key that both read before either commits, the second to commit is refused by the key, reads again and gets the first one's object, or a conflict |
| IdempotentCreation.BrokenCommitLeavesNothing | src/ticketing/services/ticket.py:186-203 | A commit that fails for another reason leaves no row, and its client learns that it failed |
| IdempotentCreation.PutExactlyWhen | src/ticketing/services/ticket.py:205-215 | Which answer a call gets, and the rows it writes, by the key's binding and the call's columns |
| IdempotentCreation.ClientsGetTheWinner | src/ticketing/services/ticket.py:205-215 | Every client that returned got the object its key is bound to exactly when its request hash is the bound one, otherwise a conflict; a bound object is never missing |
| IdempotentCreation.CreatedOnce | src/ticketing/services/background_job.py:167-213 | No two calls create under the same key |
| IdempotentCreation.BindingsAreKept | src/ticketing/services/background_job.py:224-228 | A key once bound is never rebound |
| IdempotentCreation.AnswersAreKept | src/ticketing/services/ticket.py:120-215 | A client's call and, once given, its answer are never changed by what follows |
| IdempotentCreation.AnswersAgreeWithFinalTable | src/ticketing/services/background_job.py:224-228 | Each answer, creation, replay or conflict, agrees with the final key table |
| IdempotentCreation.StepKeepsSafe | src/ticketing/services/background_job.py:166-213 | Read, failed and successful commit, and re-reading keep the equivalence |
| IdempotentCreation.RunKeepsSafe | src/ticketing/services/background_job.py:166-213 | So does every run |
| IdempotentCreation.CreationTables.Create | src/ticketing/services/ticket.py:120-203 | A whole call with any number of rival calls between its read and its commit has the outcome of the sequential operation before or after all of them; a commit that fails for another reason changes nothing |
| TicketPaging.BrowseListsExactlyOnce | src/ticketing/services/ticket.py:419-447 | Whatever happens to other tickets between the pages, a finished walk contains every ticket that was there, matched and kept its creation time at every page exactly once |
| TicketPaging.BrowseListsAtMostOnce | src/ticketing/services/ticket.py:419-447 | In every walk, over any changes of the table, listed tickets come newest first, by creation time and then by id, and an id whose creation time never changes is not listed twice |
| TicketPaging.MovedTicketComesTwice | src/ticketing/repositories/ticket.py:76-85 | That condition is needed: moved back in time between two pages, a ticket of any content comes on both |
| TicketPaging.RowsComeFromTables | src/ticketing/repositories/ticket.py:45-89 | Every listed row is a matching row of the table one of the pages was read from |
| TicketPaging.FixedTableBrowse | src/ticketing/services/ticket.py:419-447 | On a table left alone the pages put together are the whole filtered, sorted list, in exactly the needed number of pages |
| TicketPaging.ListedExactlyWhen | src/ticketing/repositories/ticket.py:45-89 | On such a table a ticket is listed if and only if its tenant is the listing's and its columns satisfy each filter given |
| TicketPaging.MatchesByColumns | src/ticketing/repositories/ticket.py:52-75 | The same of one ticket, with the keyword as some part of the folded subject or description |
| TicketPaging.MembersListWhatTheyMayOpen | src/ticketing/services/ticket.py:419-437 | Whatever a member asks for, every ticket on its page is of its tenant, and its own unless it may read all |
| TicketPaging.MembersListAllTheyMayOpen | src/ticketing/services/ticket.py:419-437 | And without filters of its own the whole listing has all of those |
| TicketPaging.BrowseIsWalk | src/ticketing/services/ticket.py:419-447 | Following the cursor over ticket rows is the walk over their keys |
| TicketPaging.Select | src/ticketing/repositories/ticket.py:45-89 | The fetched rows, column by column, are of the tenant and satisfy each filter that is given, for whatever the database makes of a text's case, and are the first ones past the cursor in listing order |
| TicketPaging.List | src/ticketing/services/ticket.py:419-447 | Items and next key are those of the key page, and every item is a ticket of the tenant that satisfies, column by column, each filter given |
| TicketListing.TextBrowseIsBrowse | src/ticketing/services/ticket.py:419-447 | A client that sends back the cursor texts it was handed is never refused and sees, page by page, what following the keys gives |
| TicketListing.TextMeansItsKey | src/ticketing/services/ticket_cursor.py:19-40 | The text of a next cursor, decoded, is the very key it was made from |
| TicketListing.ClientSeesEachTicketOnce | src/ticketing/services/ticket.py:419-447 | A client that follows the texts to the end sees every ticket that was there and matched throughout exactly once |
| Calendar.StampDenotesInstant | src/ticketing/services/ticket_cursor.py:20-22 | Every instant from year 1 to year 9999 has a valid UTC time stamp, leap years included, and the stamp denotes that instant |
| KeyPages.PageIsPrefix | src/ticketing/services/ticket.py:438-447 | A page is the first rows past the cursor; a next cursor is offered exactly when there are more, and is the last item |
| KeyPages.PageSplits | src/ticketing/repositories/ticket.py:76-85 | Every row past the cursor is on the page or past the next cursor |
| KeyPages.WalkIsStrictlyDescending | src/ticketing/repositories/ticket.py:76-88 | A walk lists strictly descending keys, all past its starting cursor |
| KeyPages.WalkMissesNothing | src/ticketing/repositories/ticket.py:76-88 | A key present at the time of every page is listed, or still ahead of an unfinished walk |
| KeyPages.FixedWalkIsWholeListing | src/ticketing/services/ticket.py:438-447 | On a fixed key set the walk ends after the needed pages and lists everything |
| KeyPages.PageCountIsCeiling | src/ticketing/services/ticket.py:440-447 | The needed number of pages is the larger of one and the number of rows divided by the limit, rounded up |
| KeyOrder.SortedIsListing | src/ticketing/repositories/ticket.py:86-88 | Sorting gives every key once, in order |
| KeyOrder.ListingIsUnique | src/ticketing/repositories/ticket.py:86-88 | There is only one such list |
| KeyOrder.TailIsListing | src/ticketing/repositories/ticket.py:76-88 | Cutting the list at a key leaves the list of what the strict cursor predicate selects |
| TicketCursor.CursorIsRead | src/ticketing/services/ticket_cursor.py:19-40 | Decoding an encoded cursor gives it back exactly when its time stamp has an offset, and refuses it when it is naive |
| TicketCursor.EncodeIsInjective | src/ticketing/services/ticket_cursor.py:19-24 | Different cursors have different texts |
| TicketCursor.AcceptedIsValidAndAware | src/ticketing/services/ticket_cursor.py:27-40 | Any text that is accepted yields a calendar date, time and offset in range, an id of 128 bits, and an aware stamp |
| TicketCursor.AcceptedIsFramed | src/ticketing/services/ticket_cursor.py:27-40 | An accepted text is, decoded, ASCII and exactly a stamp and an id within the cursor's frame, and the cursor is what these two say |
| TicketCursor.PayloadIsRead | src/ticketing/services/ticket_cursor.py:20-23 | The JSON payload of every cursor is read back exactly |
| TicketCursor.UuidIsRead | src/ticketing/services/ticket_cursor.py:35 | The hyphenated hexadecimal form of every id is read back |
| TicketCursor.PayloadIsAscii | src/ticketing/services/ticket_cursor.py:20-23 | The payload needs no byte above 127 |
| CursorText.StampIsRead | src/ticketing/services/ticket_cursor.py:34 | The ISO form of every valid time stamp, with or without fraction and with any offset or none, is read back |
| CursorText.OffsetIsRead | src/ticketing/services/ticket_cursor.py:34 | So is every offset down to microseconds, and the absence of one |
| CursorText.NumeralIsRead | src/ticketing/services/ticket_cursor.py:34-35 | Fixed-width decimal and hexadecimal numerals are read back |
| Base64Url.PaddingIsRecovered | src/ticketing/services/ticket_cursor.py:24-30 | Stripped text has no padding left, and its length alone restores the padding, for every payload |
| Base64Url.DecodedEncoded | src/ticketing/services/ticket_cursor.py:24-30 | Strict decoding inverts encoding for every byte sequence |
| Base64Url.BytesOfSextets | src/ticketing/services/ticket_cursor.py:24-30 | Regrouping bytes into sextets and back loses nothing for any length |
| TicketWorkflow.LogRefinesTicket | src/ticketing/services/ticket.py:372-407 | After any commands the first event is the creation, each event starts where the one before ended, and replaying the log gives the status and assignee |
| TicketWorkflow.AWholeLife | src/ticketing/services/ticket.py:242-333 | A member with the permissions takes an open ticket through claim, resolution, closing and reopening, with an event for each |
| TicketWorkflow.ClaimedExactlyWhen | src/ticketing/services/ticket.py:242-255 | A claim goes through if and only if the caller sees the ticket and may manage the workflow, and the ticket is open and unassigned; it is then in progress and the caller's |
| TicketWorkflow.TransferredExactlyWhen | src/ticketing/services/ticket.py:257-287 | The same for a transfer by assignee or role manager to an eligible member other than the assignee |
| TicketWorkflow.ResolvedExactlyWhen | src/ticketing/services/ticket.py:289-301 | The same for resolving a ticket in progress, which changes the status to resolved and nothing else |
| TicketWorkflow.ReopenedExactlyWhen | src/ticketing/services/ticket.py:303-319 | The same for reopening a resolved or closed ticket, by its creator or a workflow manager, which leaves it open and unassigned |
| TicketWorkflow.ClosedExactlyWhen | src/ticketing/services/ticket.py:321-333 | The same for closing a resolved ticket, which changes the status to closed and nothing else |
| TicketWorkflow.RefusedExactlyWhen | src/ticketing/services/ticket.py:242-370 | Which error is given, as a condition on the columns, for every action |
| TicketWorkflow.ActionIsLogged | src/ticketing/services/ticket.py:372-407 | A refused action changes nothing; any other changes status and assignee alone and adds one event with actor, both statuses, both assignees and the stripped note |
| TicketWorkflow.UpdatedExactlyWhen | src/ticketing/services/ticket.py:449-475 | An update goes through exactly for the creator or with the update permission, sets the fields given, stripped, and nothing else |
| TicketWorkflow.TextIsKept | src/ticketing/services/ticket.py:372-475 | Over every run the creator stays, actions leave text and priority, and text never comes to begin or end with a blank |
| TicketWorkflow.NewTicketIsOpen | src/ticketing/services/ticket.py:155-179 | A new ticket is open and unassigned, its text stripped, with one created event |
| TicketWorkflow.ClaimsAlternateWithReopens | src/ticketing/services/ticket.py:242-319 | In every reachable state a ticket is open exactly if nobody holds it, claims exceed reopenings by none or one, and a reopening lies between any two claims |
| TicketWorkflow.ClaimNeverFindsAnAssignee | src/ticketing/services/ticket.py:242-247 | On a reachable ticket the assignment conflict of a claim cannot occur; a claim succeeds exactly if ticket is visible and open and the caller may manage the workflow |
| TicketWorkflow.CommandKeepsSound | src/ticketing/services/ticket.py:242-407 | Every command keeps log and row in agreement and only extends the log; an update touches neither log, status nor assignee |
| TicketWorkflow.RunKeepsSound | src/ticketing/services/ticket.py:242-475 | So does every sequence of commands |
| TicketWorkflow.ReplayOfChain | src/ticketing/services/ticket_workflow.py:21-37 | Replaying a chained log through the transition table alone reproduces the recorded target of its last event |
| TicketWorkflow.ClaimsAndReopens | src/ticketing/services/ticket_workflow.py:21-30 | In a chained log claims minus reopenings is zero when it ends open and one otherwise, and there is one creation |
| TicketWorkflow.StaysTaken | src/ticketing/services/ticket_workflow.py:21-30 | Without a reopening a ticket that is not open stays not open |
| TicketWorkflow.TicketRecord.ClaimIt | src/ticketing/services/ticket.py:242-255 | Outcome and new row and log of a claim, the refusals in order |
| TicketWorkflow.TicketRecord.TransferTo | src/ticketing/services/ticket.py:257-287 | The same for a transfer |
| TicketWorkflow.TicketRecord.ResolveIt | src/ticketing/services/ticket.py:289-301 | The same for resolving |
| TicketWorkflow.TicketRecord.ReopenIt | src/ticketing/services/ticket.py:303-319 | The same for reopening |
| TicketWorkflow.TicketRecord.CloseIt | src/ticketing/services/ticket.py:321-333 | The same for closing |
| TicketWorkflow.TicketRecord.UpdateText | src/ticketing/services/ticket.py:449-475 | The same for an update, which can change subject, description and priority only |
| RefreshTokens.ChainsOfEveryRun | src/ticketing/services/auth.py:94-137 | In every run no refresh token is exchanged twice, replacement links form one chain per login that share no token, and a login has at most one unrevoked token, its deepest |
| RefreshTokens.IssuedIsGoodUntilItExpires | src/ticketing/services/auth.py:94-190 | A token once issued can be exchanged after any run exactly as long as its lifetime lasts in whole seconds, it is not revoked and its user is active |
| RefreshTokens.LoginAndRefreshGoThrough | src/ticketing/services/auth.py:94-137 | An active user who logs in and refreshes in time ends with one good token, the first being on record as exchanged for it |
| RefreshTokens.RevokedOnlyBy | src/ticketing/services/auth.py:106-173 | A token is revoked only by its own exchange or logout, or with all others of its user by a replay or a change of password |
| RefreshTokens.LoginIssuesExactlyWhen | src/ticketing/services/auth.py:94-104 | A login issues exactly for a known, active user with the right password; the new row, and nothing else changed |
| RefreshTokens.RefreshIssuesExactlyWhen | src/ticketing/services/auth.py:106-137 | A refresh issues exactly for a genuine, unexpired, stored and unrevoked token of an active user; both rows it writes, and the rows a replay revokes |
| RefreshTokens.LogoutEndsExactlyWhen | src/ticketing/services/auth.py:139-151 | A logout succeeds exactly for a genuine, unexpired and stored token, and revokes that row if it was not |
| RefreshTokens.PasswordChangesExactlyWhen | src/ticketing/services/auth.py:160-173 | Which answer a password change gets, and the two kinds of rows it writes |
| RefreshTokens.AccountsChangeOnlyBy | src/ticketing/services/auth.py:74-173 | Accounts appear active; only its owner's change sets a password |
| RefreshTokens.ReplayRevokesForGood | src/ticketing/services/auth.py:117-124 | After a replaced, unexpired token is presented again, no token issued to that user before works in any continuation, and one that works descends from a later login |
| RefreshTokens.PasswordChangeRevokesForGood | src/ticketing/services/auth.py:160-173 | A password change has the same effect |
| RefreshTokens.UnrevokedIsLast | src/ticketing/services/auth.py:134-135 | An unrevoked token was not replaced and is the deepest of its login |
| RefreshTokens.CommandKeepsSound | src/ticketing/services/auth.py:94-190 | Every method keeps rows, chains and the record of exchanges in agreement |
| RefreshTokens.RunKeepsSound | src/ticketing/services/auth.py:94-190 | So does every sequence of them |
| RefreshTokens.RunKeepsDead | src/ticketing/repositories/refresh_token.py:22-31 | Once a user's earlier logins have no unrevoked token, they never have one again, whatever follows |
| RefreshTokens.AuthService.LogIn | src/ticketing/services/auth.py:94-104 | Issued exactly for a known, active user with the right password; the fresh row by its columns, and nothing else changed |
| RefreshTokens.AuthService.RefreshPair | src/ticketing/services/auth.py:106-137 | Issued exactly when, by the columns of the presented token's row and its user; the two rows written; the replay branch that revokes and still refuses |
| RefreshTokens.AuthService.LogOut | src/ticketing/services/auth.py:139-151 | Done exactly when, by columns; the row's own expiry is not checked |
| RefreshTokens.AuthService.ChangeUserPassword | src/ticketing/services/auth.py:160-173 | Each answer exactly when, by columns; afterwards the password is the new one and no token of the user is unrevoked |
| PermissionCache.HitsAreBoundedlyStale | src/ticketing/services/rbac.py:110-154 | However readers, role changes, failed deletes and evictions interleave, each cache answer is the permission set the database held at a moment less than ttl plus jitter plus the filling reader's delay ago |
| PermissionCache.StaleOnlyForAReason | src/ticketing/services/rbac.py:110-198 | In every reachable state a readable entry equals the join unless a role change awaits its delete, a delete failed, or a role change fell into the fill |
| PermissionCache.UndisturbedRunsAreExact | src/ticketing/services/rbac.py:110-198 | Over whole runs: with no role change inside a fill and no failed delete, whenever every role change has had its delete a look-up finds nothing or exactly the join |
| PermissionCache.RoleChangeTakesEffectExactlyWhen | src/ticketing/services/rbac.py:128-198 | From any state, after a role change and its delete look-ups are right until the next role change if and only if every reader then between query and store holds the new set, and, where the delete failed, a look-up would have found nothing or the new set even before |
| PermissionCache.ExactFromHereExactlyWhen | src/ticketing/services/rbac.py:110-154 | In any state look-ups stay right until the next role change if and only if a look-up is right now and every reader between query and store holds the current set |
| PermissionCache.CrossedFillOutlivesDelete | src/ticketing/services/rbac.py:128-149 | From any state with a reader that holds another set than the new one: its store after the delete leaves that set cached |
| CachedPermissions.CommandTakesEffectExactlyWhen | src/ticketing/services/rbac.py:110-198 | For the commands themselves, over the tables they change: after an invitation, assignment, acceptance or leaving and its delete, look-ups give the join over the changed tables until the next such command under exactly that condition |
| CachedPermissions.AnswersAreRecentJoins | src/ticketing/services/rbac.py:110-154 | Over any run of commands beside readers, failed deletes and evictions, every answer from the cache is a join over the tables of a moment less than ttl, jitter and fill delay ago |
| CachedPermissions.RunKeepsAgree | src/ticketing/services/rbac.py:171-198 | In such a run the current set of the cache model is always the join over the tables: no command changes a join without deleting that membership's key |
| CachedPermissions.TablesFollowCommands | src/ticketing/services/rbac.py:171-198 | The tables change as the commands say and by nothing else |
| PermissionCache.LoadedDumped | src/ticketing/services/rbac.py:119-147 | What is cached is read back as the same permission set |
| PermissionCache.ReadExactlyWhen | src/ticketing/services/rbac.py:118-127 | A cached list is read exactly when every entry is the name of a code, and then as the codes named |
| PermissionCache.DumpedIsSorted | src/ticketing/services/rbac.py:147 | The names are written in ascending order, each once |
| PermissionCache.NamesByValue | src/ticketing/services/rbac.py:17-27 | The nine names |
| PermissionCache.FoundUntilItExpires | src/ticketing/services/rbac.py:140-149 | A stored set is found until its lifetime with its jitter is over, and not after |
| PermissionCache.StepKeepsDated | src/ticketing/services/rbac.py:110-154 | Every step keeps the dating of entries, fills and answers |
| PermissionCache.AnythingMayHappen | src/ticketing/services/rbac.py:110-198 | Eviction, garbling, role changes and readers at any moment are all in the model |
| PermissionCache.RunKeepsDated | src/ticketing/services/rbac.py:110-154 | So does every run |
| PermissionCache.RBACService.MembershipPermissions | src/ticketing/services/rbac.py:110-150 | The answer, the state and the failure count after a read, for a hit, a miss, an unreadable entry and each failing cache call |
| PermissionCache.ReadIsARun | src/ticketing/services/rbac.py:110-150 | A read is a run of the interleaving model |
| PermissionCache.ReadLeaves | src/ticketing/services/rbac.py:110-150 | What a read leaves cached after a hit, a store and a failed store, with the expiry |
| PermissionCache.UninterruptedReadIsClean | src/ticketing/services/rbac.py:128-150 | A read that finds nothing and is not interrupted caches the current join |
| RateLimiter.LimitHolds | src/ticketing/cache/redis.py:83-119 | Over any trace with any faults at most limit requests are let through per window, and at most twice the limit less one in any span of the window's length |
| RateLimiter.RemainingIsWhatIsLetThrough | src/ticketing/cache/redis.py:111-119 | The number reported as remaining is how many further requests of the window are let through, the first ones |
| RateLimiter.WindowAdmitsWhatRemains | src/ticketing/cache/redis.py:83-119 | Within a key's life as many requests are let through as the limit has room for |
| RateLimiter.DecisionsByValue | src/ticketing/cache/redis.py:102-119 | Every field of both decisions, and the wait to the nearest second |
| RateLimiter.FaultsAdmitNothing | src/ticketing/cache/redis.py:101-108 | A lost request leaves no trace; one whose reply is lost is counted and is no admission |
| RateLimiter.BoundIsReached | src/ticketing/cache/redis.py:18-25 | For every limit and every window longer than a millisecond some trace reaches that bound |
| RateLimiter.ExpiryIsNotProlonged | src/ticketing/cache/redis.py:18-25 | Requests while the key lives, denied ones included, never move its expiry |
| RateLimiter.WaitingOpensFreshWindow | src/ticketing/cache/redis.py:111-119 | A denied client that waits as told, when that suffices and nobody called after the window's end, opens a fresh window |
| RateLimiter.WaitingEndsWindowExactlyWhen | src/ticketing/cache/redis.py:18-25 | Whatever arrives meanwhile, after the reported seconds the window that denied is over if and only if the time left was at most a second, whole seconds, or at least half a second past them; a second less is never enough |
| RateLimiter.WaitCovers | src/ticketing/cache/redis.py:18-25 | The reported seconds, rounded to the nearest and at least one, cover the remaining milliseconds under exactly that condition |
| RateLimiter.ExpiryOnlyGrows | src/ticketing/cache/redis.py:18-25 | No request, in whatever order, brings a key's expiry forward |
| RateLimiter.ServeKeepsWindows | src/ticketing/cache/redis.py:18-25 | Windows do not overlap, and every admission lies in its window |
| RateLimiter.ServeKeepsCounts | src/ticketing/cache/redis.py:111-119 | No window admits more than the limit, nor more than the counter says |
| RateLimiter.ServeAllKeeps | src/ticketing/cache/redis.py:83-119 | Both hold after any trace in time order |
| RateLimiter.SpanBound | src/ticketing/cache/redis.py:83-119 | A span of one window's length sees at most two windows, and of two the earlier one without its first request |
| RateLimiter.RedisCache.RateLimit | src/ticketing/cache/redis.py:83-119 | Counter, decision and metrics after a call, and the open answer when the store fails before or after the script |
| TenantOwnership.OwnerIsAdministrator | src/ticketing/services/tenant.py:90-203 | In every reachable database the owner of every tenant is an active member, holds its administrator role and has every permission code |
| TenantOwnership.RolesStayInTheirTenant | src/ticketing/services/rbac.py:171-196 | In every reachable database a membership holds only roles of its own tenant, and slugs, memberships and role names are unique |
| MembershipLife.InvitedHasNothingUntilAssigned | src/ticketing/services/tenant.py:134-164 | An invited member, also one that left with roles on record, has no permission in any continuation without a role assignment to that membership |
| TenantOwnership.RunTouchesOneTenant | src/ticketing/services/rbac.py:171-198 | A run without commands on a tenant leaves every member of it and their permissions as they were |
| TenantOwnership.PerformTouchesOneTenant | src/ticketing/services/tenant.py:90-203 | So does every single command |
| TenantOwnership.OnlyInvalidatedPermissionsChange | src/ticketing/services/rbac.py:188-198 | A membership's join changes only by an invitation of it or an assignment to it, the commands after which the program deletes its cached set |
| TenantOwnership.PerformTouchesOneMember | src/ticketing/services/tenant.py:134-203 | A command leaves row and join of every membership as they were but for the one whose key is deleted |
| TenantOwnership.AssignedExactlyWhen | src/ticketing/services/rbac.py:171-187 | An assignment goes through exactly when the membership is the tenant's, every id is a role of the tenant, and an owner stays administrator |
| TenantOwnership.CountsDecide | src/ticketing/services/rbac.py:178-183 | Comparing the two counts decides, repetitions included, whether every id asked for is a role of the tenant |
| TenantOwnership.AssignedHoldsExactly | src/ticketing/services/rbac.py:188-196 | Afterwards that membership holds exactly the roles asked for and every other what it held |
| TenantOutcomes.CreatedExactlyWhen | src/ticketing/services/tenant.py:90-122 | A creation goes through exactly for a free slug with every permission row present; tenant, owner's membership and indexes by column |
| TenantOutcomes.InvitedExactlyWhen | src/ticketing/services/tenant.py:134-164 | Each outcome of an invitation exactly when; the row is then invited, without joining time, with the requester role alone |
| TenantOutcomes.AcceptedExactlyWhen | src/ticketing/services/tenant.py:166-185 | Each outcome of an acceptance exactly when; the row is then active, joined now, and nothing else changes |
| TenantOutcomes.LeftExactlyWhen | src/ticketing/services/tenant.py:187-203 | Each outcome of leaving exactly when; the row is then left with its joining time, and nothing else changes |
| TenantOutcomes.AssignmentRefusedExactlyWhen | src/ticketing/services/rbac.py:171-187 | Each refusal of an assignment exactly when |
| TenantOutcomes.PermittedExactlyWhen | src/ticketing/services/rbac.py:128-139 | A code is a member's exactly when some role of its tenant that it holds grants it |
| TenantOutcomes.AMemberComesAndGoes | src/ticketing/services/tenant.py:134-203 | Invitation, acceptance, assignment and leaving of a new member all go through in turn, and what is on record at the end |
| MembershipLife.MembershipsGoRound | src/ticketing/services/tenant.py:134-203 | No run deletes a membership or moves it to another tenant or user, and it has a joining time exactly while it is not invited; over every run acceptances and leavings alternate, and so do leavings and renewed invitations, their numbers differing by what the first and last standing account for |
| MembershipLife.PerformMovesStanding | src/ticketing/services/tenant.py:134-203 | A command keeps a membership's standing or moves it one step round invited, active, left, invited |
| TenantOwnership.DefaultRolesKeepTheirCodes | src/ticketing/services/rbac.py:55-92 | In every reachable database the three default roles of every tenant exist and grant all, seven and no codes |
| TenantOwnership.PerformKeepsSound | src/ticketing/services/tenant.py:90-203 | Every command keeps references, uniqueness, default roles and ownership |
| TenantOwnership.RunKeepsSound | src/ticketing/services/tenant.py:90-203 | So does every run |
| MembershipLife.InviteMakesPlain | src/ticketing/services/rbac.py:94-101 | After an invitation the membership is invited and holds the requester role alone |
| TenantOwnership.ProvisionedGrants | src/ticketing/services/rbac.py:55-92 | Provisioning grants every code to the administrator, seven to the agent, none to the requester, and nothing else |
| TenantRoles.ProvisionedShape | src/ticketing/services/rbac.py:55-92 | The three roles, their grants and the owner's holding after provisioning; nothing else changes |
| TenantRoles.TenantService.ProvisionDefaults | src/ticketing/services/rbac.py:55-92 | The two loops produce exactly those rows |
| TenantRoles.TenantService.Create | src/ticketing/services/tenant.py:90-122 | Outcome and tables of a creation; a taken slug or missing permission rows change nothing; no key is deleted |
| TenantRoles.TenantService.Invite | src/ticketing/services/tenant.py:134-164 | Outcome, tables and the one key deleted of an invitation, for an unknown user, a member, one who left and a new one |
| TenantRoles.TenantService.AcceptInvitation | src/ticketing/services/tenant.py:166-185 | Outcome, tables and the one key deleted of an acceptance |
| TenantRoles.TenantService.Leave | src/ticketing/services/tenant.py:187-203 | Outcome, tables and the one key deleted of leaving, which an owner cannot |
| TenantRoles.TenantService.AssignRoles | src/ticketing/services/rbac.py:171-198 | Outcome, tables and the one key deleted of a role assignment |
| Common.StrippedIs | src/ticketing/services/tenant.py:91-98 | Stripping takes blanks from both ends and nothing else |
| Common.StrippedEnds | src/ticketing/services/tenant.py:91-98 | It stops at the first and last character that is no blank |
| Common.StrippedStays | src/ticketing/services/tenant.py:91-98 | Stripping twice is stripping once |
| Common.BlankByCode | src/ticketing/services/tenant.py:91-98 | The ten ASCII blanks |
| Common.LoweredIs | src/ticketing/services/tenant.py:91 | Folding moves the capital letters to the small ones, position by position, and nothing else |
| AttachmentUpload.AttachmentService.Upload | src/ticketing/services/ticket_collaboration.py:132-194 | An upload succeeds exactly if the first chunk is not empty and bears the type's signature, the joined bytes are within the limit and, for text, NUL-free UTF-8, and neither key, disk nor commit fails; then object and row are those bytes and their number, otherwise nothing changes and the error is exactly the first cause met |
| AttachmentUpload.CutsDoNotMatter | src/ticketing/services/ticket_collaboration.py:149-172 | The verdict on a text does not depend on where it is cut |
| AttachmentUpload.SignatureByValue | src/ticketing/services/ticket_collaboration.py:259-266 | The signature bytes of the four types |
| AttachmentUpload.StoppedAt | src/ticketing/services/ticket_collaboration.py:149-172 | A stream that stops at a chunk met the size limit there or nowhere, and met no disk failure |
| AttachmentUpload.EmptyChunksDoNotMatter | src/ticketing/services/ticket_collaboration.py:230-237 | Empty chunks, and no others, are left out, and no byte changes |
| AttachmentUpload.AcceptableStream | src/ticketing/services/ticket_collaboration.py:149-172 | The chunk checks pass exactly when the joined bytes are within the limit and, for text, NUL-free UTF-8 |
| AttachmentUpload.VerdictIgnoresCuts | src/ticketing/services/ticket_collaboration.py:149-172 | From any point of a stream the verdict is a function of the bytes still to come |
| AttachmentUpload.BoundedChunks.Next | src/ticketing/services/ticket_collaboration.py:149-172 | Each call hands out the next chunk, ends, or raises as soon as the bytes so far exceed the limit or can no longer become acceptable text, the size first |
| AttachmentUpload.LocalAttachmentStorage.Write | src/ticketing/storage/local.py:31-51 | A new object with all bytes and their number, or no change and exactly the error met first: key taken, limit, content, disk |
| Utf8.ScanDecidesUtf8 | src/ticketing/services/ticket_collaboration.py:152-172 | The incremental decoder ends with nothing pending exactly on the encodings of texts |
| Utf8.ScanRefusesExactlyWhen | src/ticketing/services/ticket_collaboration.py:161-166 | The decoder refuses as early as can be: exactly when no further bytes could make the encoding of a text |
| Utf8.ScanSplits | src/ticketing/services/ticket_collaboration.py:163-166 | Decoding in two pieces is decoding the whole |
| Utf8.ScanSettles | src/ticketing/services/ticket_collaboration.py:163-166 | What the decoder keeps back is an unfinished sequence or nothing |

## Left out

- HTTP routes, request schemas, error mapping, migrations, logging, metrics other than the cache's, and settings loading.
- Database, broker, cache server and mail server internals: they appear as atomic commits, row locks, unique indexes,
  at-least-once delivery with duplicates, keys that expire, and a send that returns or raises.
- Argon2, token signatures and SHA-256: a hash identifies what it was made from; fresh ids are unused ones.
- An execution assigns every column it names. The program's mapper writes only columns it believes changed, so for a
  worker that outlived its lease the final row can differ in columns that another worker changed meanwhile.
- Error messages and their truncation, the recorded text of delivery errors, correlation ids and the backend name.
- The unsupported job kind, which ends like an invalid payload, and the contents of export files: an export ends with a
  row count or a rejection.
- The soft time limit by name. Outside the send it raises inside the worker, as `Fault` does; during the send it cancels
  the awaiting coroutine while the send goes on, which is a crash without redelivery. The hard limit kills the worker.
- The session of a worker whose insert of the delivery row was refused: it cannot commit before a rollback, so the
  program's worker fails where the model's may still record its retry. The runs proved about include both.
- Several clocks: workers, dispatcher and database share one.
- `list_events`, whose order is by transaction start; the log of the model is in commit order.
- The text of an email request: its hash covers the ticket's current subject and status, so the same request made later
  may conflict instead of replaying.
- Slugs and emails are folded and stripped as ASCII; the program folds and strips Unicode.
- Tenant, role and token methods are serial transactions. Two assignments to one membership at once, or a revocation
  running beside a refresh of the chain's last token, are not covered. A slug found taken by the index instead of by the
  read is refused in the same way.
- Joining and leaving are modelled with one row per user and tenant; `resolve_current`, `list_for_user` and
  `list_members` only read.
- The cache is present and belongs to one membership, its keys being separate; an eviction may happen at any time.
- A reply of the limiter script that has the wrong shape, which counts as a lost reply.
- Filename rules, storage paths, `read`, and failures of flush and close, which clean up like a failing write. A file
  that cannot be deleted after a failed commit stays behind in the program.
- PNG, JPEG and PDF signatures look at the first chunk only, so for them the verdict does depend on the first cut.
- AcceptedIsValidAndAware: speaks of the model's decoder, which accepts the forms the encoder writes, with `Z`, either case of hexadecimal digits, hyphens anywhere in the id and the standard base64 alphabet besides; other JSON spellings, other ISO forms and other id forms that the program's libraries accept are refused by it, and so is padding in excess of what the digits call for.
- Changes of a ticket's creation time: no code writes `created_at` after the insert, and ids are not reused. Listing a
  ticket once is proved from that, and shown to depend on it.
- The choice of rows for an export and the filters of the other repositories.
