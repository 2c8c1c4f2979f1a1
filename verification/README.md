# MM OS: a model of its access, evidence and workflow machinery

MM OS signs people in to a company's services, decides who may do what there, and keeps evidence of what
they did; Service Desk is one of those services. This project models the parts where several operations
have to agree with each other and proves, for every input or every run, what they are for.

| part | files |
|---|---|
| Activity outbox, collector, and the protocol between them | `JsonText`, `Uuids`, `ActivityContract`, `EventJson`, `ActivityCollector`, `CollectorRuns`, `OutboxProtocol`, `OutboxDrain`, `OutboxRounds`, `OutboxRefused` |
| Shared rate limiter, statement by statement | `RateLimit`, `RateLimitPurge` |
| Grants, service tokens, the revocation feed and its purge | `ControlPlane`, `ControlPlaneHandlers`, `ControlPlaneEffects`, `TokenLifecycle`, `TokenContents` |
| Role files and the people sheet's grant pass | `Text`, `RoleAssignment`, `AssignmentRules`, `RoleFile`, `RoleFileMeaning`, `RoleImport`, `RoleImportProperties`, `RoleImportPlan`, `PeopleSheet` |
| Merging a service's suggested roles | `DraftMerge`, `DraftContents` |
| Delegation ceiling, role batches, last administrator, PIN lockout | `Delegation`, `GrantEffects`, `BatchEffects`, `AdminGuard`, `PinLockout` |
| Audit log pagination | `AuditPages` |
| Service Desk: tickets, approvals, SLA, manager chain, routing | `Tickets`, `TicketMoves`, `TicketProperties`, `TicketApprovals`, `Sla`, `OrgChart`, `OrgLadder`, `Routing` |

`dafny verify dfyconfig.toml` checks everything. `Options` and `Arithmetic` are shared helpers.

How it is built. A handler is one transaction: a total function from state to state (a refusal leaves the
state alone), and a run is any sequence of handlers and clock ticks. Code that loops over rows or assigns
fields is a class or a method with that loop, proved to compute the function; the theorems are about the
function and about runs. Beside each function stands what it means, said of the rows before and after and
in both directions: who is let through, what changes, and that nothing else does. The outbox and the limiter
are finer: every publisher and every worker moves one statement at a time, in any interleaving, with lost
messages and crashes between any two.

What the source's own words promise and the code does not quite keep is stated exactly:

* **Tokens** (`AcceptedTokensAreCovered`, `LeewayGap`). An accepted token is rejected by the feed or carries
  only what would be minted now, if and only if no grant it was built from has lapsed. Inside `exp` none has;
  in the 60 s of leeway after it one may have, since `exp` is cut to the expiry of the grant but the leeway is not.
* **Re-importing a role file** (`ReimportIsQuietIff`, `ReimportCanRemoveMore`, `ThirdImportIsQuiet`). The import
  is quiet the second time if and only if the first did not empty an unlisted role it was asked to remove:
  `remove_unlisted` runs before `assign`, so with mode `all` the role is removed one import late. The third is always quiet.
* **Rate limiter** (`PurgeBreaksTheLimitIff`, `PurgeMisjudgesIff`, `StalledCallBreaksTheLimit`). The hourly purge can
  remove the row of a call that has stalled past the two-window margin. Some continuation then accepts more than the
  limit if and only if a removed row's accepted hits and its calls in flight together pass the limit and one of those
  calls can still insert a row. Some continuation answers anybody differently from a sequential limiter if and only if
  that holds, or a removed row under its limit is needed by a call on its last statement. Every run whose purges avoid
  both is sequential (`AnswersStaySequential`); leaving every row exact as well takes the stronger `PurgeAccurateIff`.
* **Outbox** (`RoundDelivers`, `CompactBatchFits`, `RefusedForever`). A batch is delivered if and only if its request
  body fits the collector's 256 000 bytes. `enqueue` bounds the compact text of an event, and the publisher's client,
  httpx 0.28.1 (`backend/requirements.txt:11`), writes exactly that, so its batches always fit. The urllib branch of
  `SQLiteActivityPublisher` (`backend/app/activity_contract.py:371-373`) writes `json.dumps` with its defaults, which
  escapes: twenty accepted events of 9 542 bytes each, with seventy accented field names, then take 27 566 bytes each,
  and no round at any later time ever delivers one of them, whatever is recorded after them; they are always read
  first and together.
* **Role batches** (`BatchDoesWhatItSays`, `ListedRoleIsLostIff`, `ServiceTwiceLosesAccess`). `batch_grants` replaces
  roles service by service, and the session does not flush before it queries (`backend/app/db.py:12`). A batch that
  names each service once leaves exactly what it lists. When a service comes up again, the later item still reads rows
  an earlier one marked for deletion and does not add them; a role the last item lists is lost if and only if an earlier
  item dropped it and no item from that one on added a row. A concrete batch asks for a role last and removes all.
* **Last administrator** (`HandlerRefusesTooMuchIff`, `ImportOutcome`, `DormantAdminCannotBeExited`). The guard counts an
  administrator whose employment is suspended as being removed but not as remaining. So each of the four handlers refuses
  a harmless request as taking the last administrator if and only if it takes such a dormant one while one account can
  sign in; `update_user` counts accounts a second time and also refuses to touch an administrator whose account is off
  while only one is on. A sheet is refused at its first row that exits an administrator while the importer may not do it
  (any more, when it exits the importer above) or at most one account that can sign in is left.
* **Approval** (`SomebodyCanDecideIff`, `UndecidableStays`, `NobodyCanEverDecide`). A request whose routing found nobody
  but the requester can be decided by nobody, and once in `manager_review` it stays there in every run; a concrete run
  gets it there. Routing can only end so through the default approver (`RequesterIsNeverNamed`).
* **Manager chain** (`ClientsAgreeIff`, `ClientsCanDiffer`, `SpellingRepeatsIff`, `SpellingApprovesItselfIff`). The
  endpoint stops at twenty people, so the two clients agree if and only if the nearest qualifying person is among them;
  over a ladder of twenty-two they do not. Asked with another spelling of an id, the endpoint lists somebody twice if and
  only if its owner comes up again above themselves within the cap, and names them their own approver if and only if they qualify.
* **Switching a service off** (`ControlPlaneHandlers.Tables.PatchService`). The handler looks for the holders with
  `select(User).join(Grant)` (`backend/app/routers/platform.py:411`), and two foreign keys connect the two tables
  (`backend/app/models.py:236`, `backend/app/models.py:245`). As read, SQLAlchemy finds the join ambiguous and raises, so
  an active service cannot be switched off that way. Whether the join is accepted is an argument of the step, and the
  theorems about tokens hold either way.
* **Key patterns** (`RoleFile.Validate`). The patterns end in `$`, which also matches before a final newline, so a
  key with one trailing newline is valid; the model keeps that.

Assumptions the model rests on: SHA-256 is injective on canonical events, where an event's timestamp is its text
with the one reading `datetime.fromisoformat` gives that text, taken as given; one clock; row locks and unique
constraints hold as declared; lower-casing is ASCII; SLA arithmetic is exact where the source divides floats;
in a role file's target service each person holds at most one role.

## Model

| member | source | states |
|---|---|---|
| ActivityContract.RetryDelayIsPowerOfTwo | backend/app/activity_contract.py:187 | the 300 s cap never binds: every retry delay is 2^min(attempts, 8), between 2 and 256 s, and never shrinks as attempts grow |
| ActivityContract.ReadResponse | backend/app/activity_contract.py:174-182 | an answer naming only events that were sent acknowledges exactly the named ones; a stray id, a malformed body or a failed request acknowledges nothing; there is no error exactly when all of them were named |
| ActivityContract.MarkAllAt | backend/app/activity_contract.py:183-192 | marking a batch changes exactly its undelivered rows, once each; a row already delivered, by whatever publisher, keeps every column |
| ActivityContract.Outbox.Enqueue | backend/app/activity_contract.py:135-142 | a valid new event gets one evidence row with its digest and one pending delivery row; anything else changes nothing |
| ActivityContract.Outbox.Mark | backend/app/activity_contract.py:183-192 | the row-by-row update of the delivery table is the batch marking the lemmas are about; evidence rows are not touched |
| ActivityCollector.StoreAllMeaning | backend/app/routers/activity.py:42-77 | a batch is stored exactly when it contradicts neither the stored rows nor itself; then it is only appended, keys stay unique, and each event is stored under its own digest |
| ActivityCollector.RedeliveryIsIdempotent | backend/app/routers/activity.py:42-77 | an acknowledged batch sent again at any later time is acknowledged with the same ids and stores nothing |
| ActivityCollector.RowsStay | backend/app/routers/activity.py:42-77 | whatever is sent next and however it is answered, every stored row keeps its place, payload and digest, and keys stay unique |
| ActivityCollector.Collector.Receive | backend/app/routers/activity.py:25-77 | the loop with its rollback and commit computes the transaction the rows below are about, answer and table |
| CollectorRuns.AnswersAreExact | backend/app/routers/activity.py:25-77 | each answer is given in exactly one case: the reserved source; over 256 000 bytes; empty, over twenty events, or an event of another service or against the contract; contradicting what is held; everything else is acknowledged id by id, and only that stores anything |
| CollectorRuns.TableHoldsTheAcknowledged | backend/app/routers/activity.py:42-77 | after any sequence of requests, honest or not, the table holds exactly the events of the acknowledged ones, no (service, event id) twice, each under the service that posted it and that it names, and valid when it arrived |
| CollectorRuns.ContractMeans | backend/app/activity_contract.py:43-95 | the contract accepts exactly the events whose texts are present, short and free of control characters, that name at most a hundred fields, give scalar values to the eleven listed ones only, are at most five minutes ahead, and fit into 12 000 bytes |
| EventJson.EventLength | backend/app/activity_contract.py:92-98 | the size the contract measures is the length of the JSON text, written out byte by byte under either encoder: UTF-8 or escapes, separators, nested objects |
| EventJson.BodyLength | backend/app/activity_contract.py:170-172 | the size the collector compares is the length of the request body with all its events |
| OutboxProtocol.HonestRequestOutcome | backend/app/routers/activity.py:29-77 | whenever and however often a posted request is handled, it is acknowledged whole unless its body is too large; never a conflict, never invalid |
| OutboxProtocol.StepKeepsInv | backend/app/activity_contract.py:156-193 | each step of publisher, network, collector and clock keeps the protocol's invariant: sound boxes, honest requests and replies, and delivered rows held centrally |
| OutboxProtocol.RunKeepsInv | backend/app/activity_contract.py:156-193 | the invariant holds after any interleaving of any number of publishers, lost posts, lost acknowledgements and crashes |
| OutboxProtocol.EvidenceIsSafe | backend/app/routers/activity.py:43-77 | in every run a delivered row is held centrally with the same payload and digest, no (service, event id) is held twice, and every central row is an event its service recorded |
| OutboxProtocol.NoHonestRetryConflicts | backend/app/routers/activity.py:47-50 | in every reachable world no request any publisher ever posted meets the 409 |
| OutboxProtocol.StepKeepsDelivered | backend/app/activity_contract.py:190-191 | no step changes a column of a delivered row, even for a publisher holding a stale batch |
| OutboxProtocol.NothingIsTakenBack | backend/app/activity_contract.py:101-121 | over every run recorded evidence keeps its columns, central rows stay in place and delivered rows are never modified again |
| OutboxDrain.BatchOutcome | backend/app/routers/activity.py:29-41 | an event accepted by enqueue still passes the collector at any later clock: a due batch is acknowledged exactly when its body fits |
| OutboxDrain.RoundDelivers | backend/app/activity_contract.py:156-193 | one publish_once delivers its whole batch if the body fits and not one row otherwise; no other row changes |
| OutboxRounds.RoundSettlesEachRow | backend/app/activity_contract.py:183-192 | column by column: a row of a batch that fits is delivered now; else it has one more attempt, the failure noted, and is due again after 2 s, doubling up to 256 s |
| OutboxRounds.RoundIsARun | backend/app/activity_contract.py:156-193 | an idle publisher whose read, post, handling, answer and settling nothing interrupts takes the interleaved world exactly where one round goes |
| OutboxRounds.InterruptionsMean | backend/app/activity_contract.py:156-193 | a crash changes nothing but where that publisher stands; giving up settles the batch as failed |
| OutboxRounds.RecordedIff | backend/app/activity_contract.py:135-142 | an event is recorded exactly when it meets the contract and its id is new: one evidence row, one delivery row, not tried and due at once |
| OutboxRounds.OldestFirst | backend/app/activity_contract.py:161-164 | a batch is in order of recording, takes the oldest due rows, and leaves one only when it has twenty |
| OutboxDrain.OutboxDrains | backend/app/activity_contract.py:156-164 | n rounds whose bodies fit deliver at least the rows due at the first one, up to 20 n, and at most 20 n; rows still backing off are not in the way |
| OutboxDrain.DueOutboxDrains | backend/app/activity_contract.py:156-164 | when every pending row is due, n such rounds leave exactly the rows beyond the first 20 n, so k rows are gone after ceil(k / 20) |
| OutboxDrain.CompactOutboxDrains | backend/app/activity_contract.py:156-193 | with the compact encoder no body ever has to be asked to fit |
| OutboxDrain.CompactBatchFits | backend/app/activity_contract.py:92-98 | the length of an event's canonical text, bounded by 12 000 at enqueue, keeps twenty of them within the collector's limit when the encoder writes that text |
| OutboxRefused.WideBytes | backend/app/activity_contract.py:92-98 | a concrete event, computed character by character: 9 542 bytes of compact UTF-8 and 27 566 escaped |
| OutboxRefused.WideNamesAscend | backend/app/activity_contract.py:37 | its field names are distinct and in text order, as `make_event` writes them from a set |
| OutboxRefused.FilledHolds | backend/app/activity_contract.py:135-142 | twenty such events with different ids are accepted by enqueue one after the other |
| OutboxRefused.FilledIsStuck | backend/app/activity_contract.py:135-142 | the outbox holding those twenty is one the next row is about, and it is sound |
| OutboxRefused.RefusedForever | backend/app/activity_contract.py:371-373 | under the escaping encoder no round at any later time delivers one of the twenty or stores one that was not, however often they were tried, whatever the collector holds, and whatever is recorded after them in between |
| Uuids.PlainUuid | backend/app/activity_contract.py:49 | five groups of 8, 4, 4, 4 and 12 hexadecimal digits, dashed, are what the parser of event ids reads |
| Uuids.DigitsAndDashesIff | backend/app/activity_contract.py:49 | of hexadecimal digits and dashes, however arranged, exactly the texts with 32 digits are read |
| Uuids.UselessRefused | backend/app/activity_contract.py:49 | a text with a character the parser has no use for is refused |
| OutboxDrain.BatchExists | backend/app/activity_contract.py:161-164 | whatever the outbox holds, the ordered and limited SELECT has an answer, so a history of rounds can always go on |
| RateLimit.Table.Check | backend/app/ratelimit.py:37-96 | alone, the three statements accept exactly when fewer than `limit` hits are counted in the window (and the first hit even at limit 0); a refusal changes no row |
| RateLimit.Table.Purge | backend/app/ratelimit.py:99-111 | the purge removes exactly the windows below the margin and returns how many rows it removed |
| RateLimit.StatementLinearises | backend/app/ratelimit.py:61-96 | the deciding statement of a call acts as one atomic hit on the sequential limiter; every other statement of it changes no row |
| RateLimit.LimiterLinearises | backend/app/ratelimit.py:37-111 | in every interleaving of any number of workers, as long as each purge leaves the calls in flight accurate rows, the answers are those of the sequential limiter, each row counts exactly the accepted hits, and no window passes its limit |
| RateLimitPurge.SpanAdmitsTwiceTheLimit | backend/app/ratelimit.py:55-56 | any span of one window length, wherever it starts, admits at most twice the limit |
| RateLimitPurge.AnswersStaySequential | backend/app/ratelimit.py:37-111 | in every interleaving whose purges remove no row still needed the answers are those of the sequential limiter and no window passes its limit |
| RateLimitPurge.PurgeBreaksTheLimitIff | backend/app/ratelimit.py:99-111 | after a purge some continuation without another one passes the limit exactly when a removed row's hits and calls in flight together pass it and one of those calls can still insert a row |
| RateLimitPurge.PurgeMisjudgesIff | backend/app/ratelimit.py:99-111 | after a purge some continuation without another one answers differently from the sequential limiter exactly in that case or when a removed row, under its limit, is needed by a call on its last statement |
| RateLimitPurge.HarmlessIsTolerable | backend/app/ratelimit.py:99-111 | a purge that leaves every call in flight an accurate row is of neither kind |
| RateLimit.PurgeAccurateIff | backend/app/ratelimit.py:99-111 | a purge leaves the row of every call in flight equal to its window's accepted hits exactly when it removes the row of none of them |
| RateLimit.StalledCallBreaksTheLimit | backend/app/ratelimit.py:99-111 | a concrete run with limit 1: a call that stalls past the margin is accepted a second time in the same window |
| ControlPlane.Earliest | backend/app/security.py:99-104 | the expiry of a token is the earliest of its lifetime and every expiry of its grants |
| ControlPlaneHandlers.Tables.RevokeRoleHolders | backend/app/roles_io.py:67-81 | exactly one cutoff row for each holder of the role, kept two hours, and the number of people returned |
| ControlPlaneHandlers.Tables.PatchRole | backend/app/routers/platform.py:507-545 | a changed permission list cuts off everyone who holds the role, an unchanged one nobody |
| ControlPlaneHandlers.Tables.PatchService | backend/app/routers/platform.py:398-430 | where the join is accepted, switching a service off cuts off everyone with a grant on it, and where it is not, nothing changes; switching it on cuts off nobody |
| ControlPlaneHandlers.Tables.DeleteGrant | backend/app/routers/platform.py:769-804 | the grant goes and its holder is cut off from that service, or nothing changes |
| ControlPlaneHandlers.Tables.ReplaceRoles | backend/app/routers/platform.py:911-929 | every unwanted grant on the service goes, with one cutoff row if there was any |
| ControlPlaneHandlers.Tables.Kill | backend/app/routers/platform.py:1391-1453 | the account is switched off with a global cutoff and one row per recently issued token |
| ControlPlaneHandlers.Tables.Purge | backend/app/routers/agent.py:422-426 | the purge removes exactly the rows past their purge time and returns their number |
| ControlPlaneEffects.ReplaceRolesMeans | backend/app/routers/platform.py:911-929 | exactly the grants of the person on the service outside the wanted roles go, the others keep every column, and the person is cut off there for two hours exactly if one went |
| ControlPlaneEffects.MoveGrantMeans | backend/app/roles_io.py:343-359 | a grant moves to another role of its service that its holder does not have, keeps its expiry, and cuts its holder off there |
| ControlPlaneEffects.PatchRoleMeans | backend/app/routers/platform.py:507-543 | the role gets the list and keeps the rest; exactly the holders are cut off, exactly if the list changed |
| ControlPlaneEffects.PatchServiceMeans | backend/app/routers/platform.py:398-430 | switching off cuts off exactly those with a grant on the service; switching on, nobody; where the join is refused nothing changes |
| ControlPlaneEffects.SwitchMeans | backend/app/routers/people.py:664-690 | the account is as asked; it is cut off everywhere exactly when it was on and goes off, and nobody else is |
| ControlPlaneEffects.LeavingMeans | backend/app/routers/platform.py:1391-1453 | a kill or a change of employment cuts off that person and nobody else; a kill names every token it is told of |
| ControlPlaneEffects.AddingMeans | backend/app/routers/platform.py:720-765 | a grant, or a role, is added and a role deleted under exactly the stated conditions, and nobody is cut off by it |
| ControlPlaneEffects.FeedMeans | backend/app/routers/agent.py:117-129 | the feed of a service is what a purge right now would leave of its own rows and the global ones, so no purge ever changes a feed |
| ControlPlaneHandlers.Tables.ExpiryOf | backend/app/routers/tokens.py:95-99 | going through the live grants one by one yields the earliest of the lifetime and every expiry |
| ControlPlaneHandlers.Tables.IssueToken | backend/app/routers/tokens.py:55-118 | the handler with its loop over the live grants issues the token the next row is about, or refuses |
| TokenContents.TokenIsTheEntitlement | backend/app/routers/tokens.py:36-118 | over the tables alone: a token goes to exactly the active, employed people with an unexpired grant on the active service; for every such grant it carries the role, all its permissions and the grant as a source, and it carries nothing else |
| TokenContents.MintedEnds | backend/app/security.py:99-104 | it ends with its lifetime or with one of those grants, and no later than any of them |
| TokenLifecycle.FlagOutlivesToken | backend/app/roles_io.py:64 | 900 s of life and 60 s of leeway end inside the two hours every revocation row is kept |
| TokenLifecycle.StepAccounts | backend/app/routers/platform.py:768-804 | whatever handler changes something a token was built from also writes a row that rejects the token |
| TokenLifecycle.PurgeAccounts | backend/app/routers/agent.py:422-426 | a purge takes no row that a token still inside its life and leeway needs |
| TokenLifecycle.RunKeepsInv | backend/app/routers/platform.py:768-804 | in every run each acceptable token either has everything it was built from intact or is flagged by a row its service sees |
| TokenLifecycle.MintableIffNotLapsed | backend/app/routers/tokens.py:38-51 | a token nobody revoked carries only what would be minted now exactly when no grant it was built from has lapsed |
| TokenLifecycle.AcceptedTokensAreCovered | backend/app/routers/agent.py:117-140 | in every run a token its service accepts is rejected by the feed or still mintable, exactly unless a source grant has lapsed; inside `exp` it is always covered |
| TokenLifecycle.NoTokenOutlivesItsGrants | backend/app/security.py:99-104 | no token expires after a grant it was built from, nor more than 900 s after it was issued |
| TokenLifecycle.RejectionLasts | backend/app/routers/agent.py:122-129 | once rejected, a token stays rejected as long as any service would accept it, through every later step and purge |
| TokenLifecycle.LeewayGap | backend/app/security.py:99-104 | a concrete run: a token accepted in its leeway after its only grant ended, not mintable and rejected by no row |
| Text.StripTwice | backend/app/roles_io.py:186 | stripping a name is idempotent |
| Text.FirstOccurrencesDistinct | backend/app/roles_io.py:189 | the de-duplicated permission list has no repeats, and a list without repeats is left as it is |
| RoleAssignment.NamedRole | backend/app/roles_io.py:281-284 | an identifier finds the last entry of `people` that equals it ignoring case, or none |
| RoleAssignment.FirstNamed | backend/app/roles_io.py:282-284 | the first of code, login and work e-mail that is named decides |
| RoleAssignment.FirstRule | backend/app/roles_io.py:285-287 | the first matching rule decides, and there is none exactly when no rule matches |
| AssignmentRules.RuleMatchesIff | backend/app/roles_io.py:265-276 | a rule matches exactly those who miss none of its conditions; without a band or department one misses every list of them |
| AssignmentRules.SourcesInOrder | backend/app/roles_io.py:279-289 | code before login before work e-mail, all before the first rule that matches, that before the default; nothing exactly when none of them is there |
| AssignmentRules.DecisionIff | backend/app/roles_io.py:324-359 | who is left alone, ticked off, named a missing role, given one, switched or kept, each exactly when; a held role is only replaced in mode `all` or by a filled cell |
| AssignmentRules.RunReports | backend/app/roles_io.py:324-359 | the run counts exactly those it left as they were and warns of exactly the roles it should have given and did not find |
| AssignmentRules.UnmatchedIff | backend/app/roles_io.py:360-363 | a run over everyone warns of exactly the names that are nobody's code, login or work e-mail |
| AssignmentRules.SuccessorMeans | backend/app/roles_io.py:409-428 | whoever had a replaced role goes to the first role of the file that replaces it |
| AssignmentRules.CleanupReports | backend/app/roles_io.py:430-443 | clean-up warns of exactly the roles it would remove if nobody had them |
| AssignmentRules.DirectionIsListOrder | backend/app/roles_io.py:343-359 | the plan calls a change up exactly when the new role stands further down the file than the old one |
| RoleAssignment.AssignAllPointwise | backend/app/roles_io.py:324-359 | the loop over people decides each from the state before the run: nobody's result depends on anybody else's, everyone else is untouched, and one revocation row is written per switched role |
| RoleAssignment.ServiceAccess.AssignOne | backend/app/roles_io.py:324-359 | one iteration, branch by branch, with its plan entry and warning |
| RoleAssignment.ServiceAccess.AssignRoles | backend/app/roles_io.py:296-363 | the whole loop, and a warning for exactly the named people nobody matches when the run covers everyone |
| RoleFile.CheckHeader | backend/app/roles_io.py:128-150 | exactly the problems of format, service, catalog keys and an empty role list |
| RoleFile.CheckRoles | backend/app/roles_io.py:151-191 | exactly the problems of the roles, the keys seen, and the normalised roles when there is no problem |
| RoleFile.CountDefaults | backend/app/roles_io.py:192-193 | more than one default is counted exactly when two valid roles are marked default |
| RoleFile.CheckClashes | backend/app/roles_io.py:194-197 | exactly the roles that claim to replace a role the file still lists |
| RoleFile.CheckAssign | backend/app/roles_io.py:199-224 | exactly the problems of the assignment block |
| RoleFile.Validate | backend/app/roles_io.py:123-235 | the normal form if and only if there is nothing to complain about; otherwise every problem of the file at once and no other |
| RoleFile.NormalIsAcceptable | backend/app/roles_io.py:226-235 | validation is idempotent: what it returns is accepted again and returned as it is |
| RoleFileMeaning.NothingWrongIff | backend/app/roles_io.py:123-224 | nothing is wrong with a file exactly when it has the right format and service, well-formed keys, at least one role, every role named, distinct, within the catalog and replacing no listed one, at most one default, and an assignment within the listed roles |
| RoleFileMeaning.NormalKeeps | backend/app/roles_io.py:181-235 | the normal form strips names, drops an empty description and repeated permissions in place, and keeps everything else |
| RoleFileMeaning.StripMeans | backend/app/roles_io.py:186 | stripping takes blanks, off the ends, and all of them |
| RoleImport.ValidatedIsCoherent | backend/app/roles_io.py:151-224 | a validated file has distinct keys, replaces no listed role, and assigns only roles it lists |
| RoleImport.RevokeRoleHolders | backend/app/roles_io.py:67-81 | one revocation row per holder of the role, and their number |
| RoleImport.DeclareRoles | backend/app/roles_io.py:381-407 | catalog and roles become the file's, in its order; created, updated and permission-changed roles are told apart, and holders of the last are cut off |
| RoleImport.ReplaceRoles | backend/app/roles_io.py:409-428 | everyone on a replaced role moves to its successor with one revocation row, and the old role goes |
| RoleImport.RemoveUnlisted | backend/app/roles_io.py:430-443 | exactly the unlisted, unreplaced roles nobody holds go; the held ones stay with a warning |
| RoleImport.Apply | backend/app/roles_io.py:367-449 | the whole import is the composition of the four passes, plan included |
| RoleImportProperties.ImportConservesAccess | backend/app/roles_io.py:381-449 | everyone with a role still has exactly one, it exists, it is what `replaces` and then `assign` say, and a revocation row is new exactly for those whose role or its permission list changed |
| RoleImportProperties.SecondImport | backend/app/roles_io.py:381-449 | importing the same file again only removes the unlisted roles the first import emptied |
| RoleImportProperties.ReimportIsQuietIff | backend/app/roles_io.py:430-447 | the second import has an empty plan and changes nothing exactly when the first emptied no unlisted role it was to remove; it never touches a grant or writes a revocation row |
| RoleImportProperties.ThirdImportIsQuiet | backend/app/roles_io.py:430-447 | a third import always changes nothing |
| RoleImportProperties.ReimportCanRemoveMore | backend/app/roles_io.py:430-447 | a concrete validated file whose second import still removes a role |
| RoleImportProperties.ListingIsFileOrder | backend/app/roles_io.py:387-392 | ordering the declared roles by sort order gives back the order of the file |
| RoleImportProperties.ExportUndoesImport | backend/app/roles_io.py:245-261 | after a file that leaves no unlisted role, export returns its declarations in order, they validate unchanged, and importing them changes nothing, for any directory |
| RoleImportPlan.AssignAllPlan | backend/app/roles_io.py:343-359 | the plan lists exactly the people given a role and the people switched, each with its decision and direction |
| RoleImportPlan.PlanTellsTheTruth | backend/app/roles_io.py:376-379 | the plan, which is also the dry run, is exactly the difference between before and after: catalog, roles created, removed and updated, people given, moved or switched, and nobody and nothing else |
| PeopleSheet.DropRows | backend/app/people_sheet.py:682-696 | exactly the grants of unskipped people whose cell says `none` go, one revocation row each |
| PeopleSheet.ApplyColumn | backend/app/people_sheet.py:659-696 | one service column: the assignment run followed by the `none` cells; roles and catalog are untouched |
| PeopleSheet.SheetFollowsPrecedence | backend/app/people_sheet.py:653-697 | for everyone on the sheet and not unticked: a filled cell replaces, `none` removes, else the existing role, else the department default, else the lowest role, with one revocation row exactly when a held role changed or went; everyone else is untouched |
| PeopleSheet.ApplyGrants | backend/app/people_sheet.py:653-697 | the loop over the service columns is the columns applied one after the other, each to its own service |
| PeopleSheet.EveryColumnFollows | backend/app/people_sheet.py:653-697 | after the whole pass the sheet is followed in every service that has a column, and no other service is touched |
| DraftMerge.ParseRoles | backend/app/access_contract.py:67-80 | the suggested roles are accepted exactly when none lists an undeclared permission; the first that does is reported |
| DraftMerge.DraftRoleFile | backend/app/access_contract.py:156-209 | the two loops, with the backward search for a predecessor and the insertion, compute the draft and its notes |
| DraftMerge.DraftMerges | backend/app/access_contract.py:168-192 | every existing and suggested role is listed exactly once, suggested roles keep their order, and each kept role stands right behind its predecessor in the existing order, or first |
| DraftMerge.DraftListsTheCatalog | backend/app/access_contract.py:183-192 | only catalog permissions are listed |
| DraftMerge.EmptyRolesAreNoted | backend/app/access_contract.py:193-201 | a kept role is left with no permissions exactly when a note says so |
| DraftContents.DraftSaysOfEach | backend/app/access_contract.py:168-192 | a suggested role lists what was suggested under the name, meaning and default flag it already has, or as a new one; a kept role keeps all of these with what the catalog still has of its permissions, in order |
| DraftContents.NotesTell | backend/app/access_contract.py:193-201 | the kept roles get one note each, in order: it says that the catalog has none of its permissions, or which it has not, or that it has them all |
| DraftMerge.DraftMovesNobody | backend/app/access_contract.py:156-162 | importing a draft changes nobody's grant and deletes no role |
| Delegation.CeilingRestsOnAGrant | backend/app/authorization.py:100-125 | a non-administrator's accepted request is within their scope, for somebody else who is no administrator, and rests on one live grant of their own, on the same service, with at least its permissions and no earlier expiry |
| GrantEffects.CeilingIff | backend/app/authorization.py:100-125 | each refusal is given in exactly one case; a delegate within reach, for somebody else who is no administrator, with a live covering grant of their own and an expiry ahead, is let through |
| Delegation.GrantDesk.CreateGrant | backend/app/routers/platform.py:720-765 | the grant is added exactly when the ceiling allows it and it is not held already, with the refusal otherwise |
| GrantEffects.CreateGives | backend/app/routers/platform.py:720-765 | an allowed request leaves the target holding the role, until the time asked for if they did not hold it, and changes nothing else; any other changes nothing |
| Delegation.GrantDesk.BulkGrants | backend/app/routers/platform.py:808-873 | all targets are checked before any row is written: either everyone without the role gets it or nothing changes |
| GrantEffects.BulkGives | backend/app/routers/platform.py:808-873 | allowed exactly when it is for every target, it leaves each of them with the role and changes nothing else |
| Delegation.GrantDesk.BatchGrants | backend/app/routers/platform.py:880-943 | every role of every service is checked before any row is written; then item by item, with what is marked for deletion written only when a row is added |
| BatchEffects.BatchDoesWhatItSays | backend/app/routers/platform.py:880-943 | a batch naming each service once: on a replaced service the target ends with exactly the listed roles, on another named one with those and the ones before; kept grants keep their expiry, new ones have none, and no other grant changes |
| BatchEffects.LastItemDecides | backend/app/routers/platform.py:911-935 | whatever services repeat, the last item on one decides: the rows it lists, unless marked and not flushed yet, and without `replace` the rows there |
| BatchEffects.ListedRoleIsLostIff | backend/app/routers/platform.py:911-935 | a listed role is lost exactly when an earlier item dropped its row and no item from that one on added a row |
| BatchEffects.ServiceTwiceLosesAccess | backend/app/routers/platform.py:911-935 | a concrete batch that names a service twice, asks for a role last, and leaves the person with none |
| Delegation.GrantDesk.SeedGrants | backend/app/routers/people.py:213-262 | a new person's grants all land or none does |
| GrantEffects.SeedGives | backend/app/routers/people.py:213-262 | all are given exactly when each could be given on its own, was not held and is asked for once, whatever the order; the person then holds exactly those besides what was there |
| Delegation.StepBounded | backend/app/authorization.py:100-125 | each handler adds only grants covered by a grant that was there, unless a platform administrator issued them |
| Delegation.DelegationTraces | backend/app/authorization.py:100-125 | in every run each grant traces to one present at the start or issued by an administrator, on the same service, with at least its permissions and an expiry no earlier |
| Delegation.NothingNewIsExercised | backend/app/authorization.py:100-125 | without an administrator's step no (service, permission) pair becomes exercisable at any future time that was not already |
| AdminGuard.StepKeepsAnAdmin | backend/app/authorization.py:42-63 | every handler that could strip, switch off or move out an administrator leaves one who can sign in |
| AdminGuard.AnAdminAlwaysRemains | backend/app/authorization.py:42-63 | starting with an administrator who can sign in, one remains in every run |
| AdminGuard.AdministratorsAreGuarded | backend/app/routers/people.py:623-645 | making, unmaking, switching or moving an administrator takes an acting administrator, except that update_user may switch one back on |
| AdminGuard.UpdateAnswers | backend/app/routers/people.py:618-700 | update_user and update_employee give each refusal in exactly one case; whatever is let through leaves the target with the flags asked for and everybody else as they were |
| AdminGuard.AccountAnswers | backend/app/routers/platform.py:1391-1404 | the same for patch_account and kill_user: an allowed kill switches the account off and touches nobody else |
| AdminGuard.LastAdminMeans | backend/app/routers/people.py:645-656 | the four handlers answer that this is the last administrator exactly when the request takes one, the actor may, and at most one is counted |
| AdminGuard.ImportKeepsAnAdmin | backend/app/people_sheet.py:597-611 | a sheet exiting several administrators is refused before it could exit the last |
| AdminGuard.ImportOutcome | backend/app/people_sheet.py:597-611 | any importer, any sheet: the first row that exits an administrator while the importer has no power (any more) refuses it as forbidden, or while at most one who can sign in is left as the last administrator; with no such row exactly the exited rows go off |
| AdminGuard.ImportExitingOneself | backend/app/people_sheet.py:597-611 | an importer whose own exit on the sheet went through is refused as forbidden at the next administrator |
| AdminGuard.NeedlessRefusalIff | backend/app/authorization.py:50-54 | the guard protects a last administrator although one would remain exactly when the target is dormant and one account can sign in |
| AdminGuard.HandlerRefusesTooMuchIff | backend/app/routers/people.py:645-656 | update_user, update_employee, patch_account and kill_user each refuse a harmless request as the last administrator exactly then, and update_user also for an account that is off while one administrator's is on |
| AdminGuard.ImportByAnotherAdmin | backend/app/people_sheet.py:597-611 | a sheet imported by an administrator who stays is refused exactly when some row exits an administrator while, after the rows before it, the importer is the only one left who can sign in; otherwise it switches off exactly the exited rows |
| AdminGuard.DormantAdminCannotBeExited | backend/app/authorization.py:50-54 | a concrete harmless exit the guard refuses |
| AdminGuard.Directory.ProtectedAdminChange | backend/app/authorization.py:42-63 | passing the guard means an acting administrator asks and, when an administrator who is on is removed, another who can sign in remains; the last-administrator refusal means an acting administrator asked and at most one account counts as an administrator who can sign in |
| AdminGuard.Directory.UpdateUser | backend/app/routers/people.py:618-700 | the new flags, or the refusal with nothing changed |
| AdminGuard.Directory.UpdateEmployee | backend/app/routers/people.py:335-395 | the new employment status, or the refusal with nothing changed |
| AdminGuard.Directory.PatchAccount | backend/app/routers/people.py:1055-1130 | the new flags of a functional account, or the refusal with nothing changed |
| AdminGuard.Directory.KillUser | backend/app/routers/platform.py:1391-1404 | the account switched off, or the refusal with nothing changed |
| AdminGuard.Directory.ImportPeople | backend/app/people_sheet.py:515-611 | the account part of the import, row by row, with every row undone when one is refused |
| PinLockout.PinAccount.PinLogin | backend/app/routers/auth.py:502-565 | the handler, statement by statement, computes the attempt the next rows are about |
| PinLockout.PinAccount.ChangePin | backend/app/routers/auth.py:572-618 | counter, lock and verdict of a PIN change; a refused new PIN leaves the row as it was |
| PinLockout.SignInIff | backend/app/routers/auth.py:527-565 | a sign-in is let through exactly for the right PIN of a usable account that has one, is no administrator's and is not locked, and clears counter and lock; any other unlocked one counts one failure more and locks exactly at max_attempts, until now + lockout; nothing else moves |
| PinLockout.PinChangeIff | backend/app/routers/auth.py:572-618 | the same for a change of PIN, which also takes an acceptable new one; a refused new PIN changes nothing |
| PinLockout.WrongPinsLock | backend/app/routers/auth.py:527-555 | wrong PINs, however far apart, are counted one by one; the max_attempts-th locks and no earlier one does |
| PinLockout.RunKeepsInv | backend/app/routers/auth.py:527-555 | in every run any `max_attempts` later failure comes at least a lockout later |
| PinLockout.FailuresAreBounded | backend/app/routers/auth.py:527-602 | between successes and resets the failures in any span number at most max_attempts * (span / lockout + 1) |
| PinLockout.NothingCheckedUnderLock | backend/app/routers/auth.py:531-536 | while a lock lasts and nobody resets it, whatever is tried compares no PIN and moves neither counter nor lock |
| AuditPages.RowsPastCursor | backend/app/routers/platform.py:1328-1335 | asking past the k-th row returns exactly the rest of the list, ties on created_at included |
| AuditPages.FollowReadsAll | backend/app/routers/platform.py:1314-1341 | from any cursor the pages concatenate to the whole remaining list, in exactly as many pages as it takes |
| AuditPages.PagesCoverTheLog | backend/app/routers/platform.py:1314-1341 | on a fixed log the pages yield every matching row exactly once in (created_at, id) descending order and stop after max(1, ceil(n / limit)) |
| Tickets.DoorsAreTheTable | servicedesk/app/routers/tickets.py:36-53 | the generic transition door opens onto exactly the edges of the tables that neither leave a draft, nor make a proposal, nor decide one |
| TicketMoves.CreatedMeans | servicedesk/app/routers/tickets.py:73-118 | a new ticket has had nothing happen but its creation; an automation request takes mode, approvers and first approver from its route, without the requester |
| TicketMoves.MovesIff | servicedesk/app/routers/tickets.py:193-217 | a requester who is no agent may only close their own ticket or reopen a closed one, an agent makes every hop of the door, and reopening takes a closing at most seven days ago; each refusal exactly otherwise; the hop is logged and the clocks set |
| TicketMoves.ProposesIff | servicedesk/app/routers/proposals.py:36-72 | exactly an automation request under IT review takes a proposal |
| TicketMoves.DecidesIff | servicedesk/app/routers/decisions.py:34-60 | whoever is asked decides, once, and never on their own request; each refusal exactly otherwise; every decision is kept |
| TicketMoves.RefusalLeaves | servicedesk/app/routers/decisions.py:60-97 | a rejection rejects, and a request for changes goes back to IT and starts the approvals over |
| TicketMoves.ApprovalLeaves | servicedesk/app/routers/decisions.py:60-97 | an approval approves, except in a sequence with somebody left, which waits for the next one |
| Tickets.TicketRow.Apply | servicedesk/app/state_machine.py:71-114 | the fields and the event row of a legal transition, or the refusal with nothing changed |
| Tickets.TicketRow.Propose | servicedesk/app/routers/proposals.py:36-72 | a proposal on a request under IT review, one version more and one hop on |
| Tickets.TicketRow.Decide | servicedesk/app/routers/decisions.py:34-97 | the decision protocol: who may decide, the next approver of a sequence, the reset on a request for changes |
| TicketProperties.FreshMeans | servicedesk/app/state_machine.py:47-59 | what "a proposal since changes were last requested" means in the log |
| TicketProperties.TransitionHops | servicedesk/app/state_machine.py:47-59 | a transition keeps the hop count of either kind, the one approval and the fresh proposal |
| TicketProperties.StepKeepsInv | servicedesk/app/routers/tickets.py:172-217 | every door of a ticket keeps its log legal, its clocks in step and its hop count |
| TicketProperties.RunKeepsInv | servicedesk/app/state_machine.py:82-114 | in every run from creation: the log is a legal path to the status, closed_at is set exactly while closed, first_response_at is the first move, an automation request has made four hops per request for changes plus a number fixed by its status, with exactly one approval once approved, after a fresh proposal; a support ticket's hops follow from its status and how often it was resolved |
| TicketApprovals.ApprovedMeansApproved | servicedesk/app/routers/decisions.py:44-95 | an approved, built, deployed or closed request has, with no request for changes since, the approval of everyone its route lists besides the requester, or of one of them when any will do; there is somebody |
| TicketApprovals.SomebodyCanDecideIff | servicedesk/app/routers/decisions.py:44-53 | a request under review can be decided by somebody exactly when its route lists somebody other than the requester |
| TicketApprovals.UndecidableStays | servicedesk/app/routers/decisions.py:44-53 | a request under review whose route lists nobody but the requester is under review after any further steps |
| TicketApprovals.NobodyCanEverDecide | servicedesk/app/routers/tickets.py:92-104 | a concrete route and run: reviewed, proposed and sent to its manager, the request can be decided by nobody at any later time |
| Sla.StepReading | servicedesk/app/sla.py:55-65 | no step of a ticket turns a clock back |
| Sla.BreachIsPermanent | servicedesk/app/sla.py:46-77 | a reported response or resolution breach is reported at every later time, through closing and reopening |
| Sla.BreachMeans | servicedesk/app/sla.py:46-77 | in every run the response is breached exactly when the first move in the log came later than the response target, or none has and it is later now; the resolution exactly when the ticket closed later than the resolution target, or is open and it is later now |
| OrgChart.SeedOrgChartClient.ChainFor | servicedesk/app/org_chart.py:79-90 | the while loop ends on every manager map and returns the manager walk |
| OrgChart.ChainForIsTheManagerWalk | servicedesk/app/org_chart.py:79-90 | on any manager map the chain starts at the person, follows manager edges, repeats nobody, and ends only where there is nobody left to climb to |
| OrgChart.ComputeApprover | servicedesk/app/org_chart.py:213-230 | the loop returns the first qualifying person other than the requester |
| OrgChart.ApproverIsNearestAbove | servicedesk/app/org_chart.py:213-230 | that is the nearest qualifying person strictly above the requester; there is none exactly when nobody above qualifies |
| OrgChart.OrgChain | backend/app/routers/agent.py:336-407 | the capped loop over user and employee tables returns the endpoint's walk |
| OrgChart.NodeMeans | backend/app/routers/agent.py:375-405 | a node says what the person's own row says, with the subject of whoever has the manager's row as manager |
| OrgChart.OrgChainIsAPrefix | backend/app/routers/agent.py:358-407 | from a canonical subject the endpoint lists exactly the first people, up to its cap, of the in-memory walk over the same tables |
| OrgChart.ClientsAgreeIff | servicedesk/app/org_chart.py:213-230 | both clients compute the same approver exactly when nobody above qualifies or the nearest who does is among the first twenty |
| OrgChart.SpellingRepeatsIff | backend/app/routers/agent.py:366-373 | from another spelling of an id somebody is listed twice exactly when its owner comes up again within the cap above themselves |
| OrgChart.SpellingApprovesItselfIff | backend/app/routers/agent.py:366-373 | from another spelling the person is named their own approver exactly when they qualify |
| OrgChart.OtherSpellingRepeats | backend/app/routers/agent.py:366-373 | a concrete directory and spelling where both happen |
| OrgLadder.ClientsCanDiffer | backend/app/routers/agent.py:366-373 | a concrete directory of twenty-two people: the in-memory client finds the last, the endpoint nobody |
| Routing.BestRuleIsChosen | servicedesk/app/routing.py:26-47 | the best rule has nothing the ticket lacks and asks for more than any other such active rule; among those asking for as much it is the oldest, among those of one age the first row; there is none exactly when no active rule is covered |
| Routing.ResolveApprover | servicedesk/app/routing.py:66-103 | the loop over the listed approvers, the chain and the default compute the result the next row is about |
| Routing.SourcesInOrder | servicedesk/app/routing.py:66-103 | the rule is used exactly when it lists somebody else by name, the chain exactly when the rule asks nobody and somebody else on it may approve, the default exactly when neither, and nobody is named exactly without a default; each names its first, nearest or only candidate |
| Routing.RequesterIsNeverNamed | servicedesk/app/routing.py:66-103 | a rule or the chain never names the requester; only the default can; the rule is used exactly when it lists somebody else |
| Routing.RoutingSetsUpTheApproval | servicedesk/app/routers/tickets.py:92-104 | the stored policy starts with the approver asked first, or lists nobody and asks the requester |
| Routing.RouteMeans | servicedesk/app/routers/tickets.py:92-104 | the policy keeps the mode, the approver asked first, and the rule's askable approvers or else that approver |
| Routing.KeptJoins | servicedesk/app/routers/tickets.py:101-103 | the kept approvers are the named ones other than the requester, in their order |

## Left out

- The limits of the parts: HTTP, cookies, Google sign-in, JWT signing, argon2, workbook parsing and styling, demo seeding, notifications, the front end and the client libraries; none of them carries the state the theorems are about.
- JSON typing: a document arrives with its fields already of the declared types, so the branches that reject a wrong JSON type are not modelled, in role files, manifests and events alike.
- Iteration order: plans, problems and warnings are sets and revocation rows are counted per person, so the order in which the source lists or inserts them is not captured.
- Locking inside one transaction: handlers are atomic, and a mint racing an uncommitted revocation is not modelled.
- The capture hooks that call `enqueue` are not modelled, nor is the SQLite publisher's second copy of the contract apart from the encoder of its urllib branch; an event is enqueued in the transaction of its change.
- The copied columns of service_activity, the publisher thread's timing, and delivery_status are not modelled.
- The duplicate and shared-mailbox marking of sheet rows, employee and e-mail updates, and the reporting of the people import are not modelled; the sheet starts from active rows joined to their accounts.
- Uuids.PlainUuid: digits of scripts other than ASCII, which the UUID parser also reads, are not modelled.
- ControlPlaneHandlers.Tables.PatchService: whether SQLAlchemy accepts the join is an argument, because the mapper's own rules are not part of this model.
- RoleImport.Apply: an old role named by `replaces` twice is moved by the first entry and, having no holder left, ignored after that; the second listing of it in the plan and the mapper's warning are not modelled.
- Visibility and permission checks of Service Desk, comments, proposal contents, decision snapshots, and the audit rows of every handler are not modelled; they only refuse more or record more.
- Grants made by a role file or the sheet keep no expiry in the role-file model; TokenLifecycle moves a grant in place with its expiry.
- Fields of a person that only label them (codes, names, departments of a chain node) are not modelled where nothing decides on them.
- Delegation.GrantDesk.BatchGrants: an item carries what looking up its active service and its role keys gave; a lookup that fails refuses the batch, and the revocation rows of a replacement are ControlPlaneEffects.ReplaceRolesMeans.
- AdminGuard.Directory.UpdateUser: capability and scope checks are one given truth value, because what they read is outside the guard; likewise AdminGuard.Directory.UpdateEmployee.
- AuditPages.PagesCoverTheLog: a cursor is the pair its text encodes; base64 and the 400 for a malformed cursor are not modelled.
- OrgChart.OrgChainIsAPrefix: subjects in the canonical spelling; what another spelling gives is SpellingRepeatsIff and SpellingApprovesItselfIff.
- PeopleSheet.SheetFollowsPrecedence: asks that no sheet person's employee code is, ignoring case, another's code or e-mail, which the normalised codes of distinct rows guarantee.
- Sla.BreachIsPermanent: elapsed times are exact; the rounding of the displayed minutes is not modelled.
