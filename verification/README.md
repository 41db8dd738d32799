# SES v2 dedicated-IP assignment and Lex model waiters, in Dafny

This project models two small pieces of decision logic from the AWS Terraform provider.

**The `aws_sesv2_dedicated_ip_assignment` resource** (`dedicated_ip_assignment.dfy`).
The resource ID is `"ip,pool"`; `ToId` joins the two parts and `SplitId` splits them back. `SplitId` follows Go's `strings.Split` (modelled in `go_strings.dfy`).
`FindDedicatedIpAssignmentById` classifies the answer of one `GetDedicatedIp` call. The answer is an input value. The result is the found record, a not-found error (API `NotFoundException`, empty result, or record in another pool), or an API error passed through.
`Create`, `Read` and `Delete` model the handlers' decisions over an immutable `ResourceData` record. Each API answer is a parameter.

**The Lex model-building waiters** (`lex_wait.dfy`).
Each waiter builds a pending and a target label list. It runs the plugin SDK's convergence waiter, then post-processes the payload it gets back.
The convergence waiter and `tfresource.SetLastError` are not part of this model's source. `state_change.dfy` models them as clearly labelled assumptions:
- a function `WaitForState` over the finite sequence of refresh results that arrive before the deadline;
- a label in the target means success;
- a label in pending means poll again;
- any other label means unexpected state;
- a refresh error aborts with that error;
- a nil payload means success when the target is empty, and poll again otherwise;
- reaching the end of the sequence means timeout, carrying the last state and a nil payload;
- `SetLastError` fills in the reason of a timeout or unexpected-state error that has none, and changes nothing else.

Because a timeout returns a nil payload, every Lex waiter that times out returns a nil output with the timeout error untouched.

The code only attaches a reason to an error the waiter already returned; a success stays a success (`LexWait.BotReasonAttachedOnlyForFailedBot`).

## Model

| member | source | states |
|---|---|---|
| GoStrings.Split | internal/service/sesv2/dedicated_ip_assignment.go:170 | `strings.Split` on `,` gives one more piece than there are commas, and no piece holds a comma |
| DedicatedIpAssignment.SplitId | internal/service/sesv2/dedicated_ip_assignment.go:169-175 | an ID with exactly one comma splits into two comma-free parts that `ToId` joins back into the ID; any other comma count gives `("", "")` |
| DedicatedIpAssignment.ToId | internal/service/sesv2/dedicated_ip_assignment.go:165-167 | the IP, one `,`, then the pool: the ID holds one more comma than the two parts, so exactly one when they hold none; `SplitIdToId` inverts it |
| DedicatedIpAssignment.SplitIdToId | internal/service/sesv2/dedicated_ip_assignment.go:165-175 | round trip: splitting `toID(ip, pool)` gives back `(ip, pool)` when neither part holds a comma |
| DedicatedIpAssignment.SplitIdEmptyExactly | internal/service/sesv2/dedicated_ip_assignment.go:169-175 | `splitID` returns `("", "")` exactly when the ID does not hold exactly one comma, or is the lone comma that splits into two empty parts |
| DedicatedIpAssignment.FindDedicatedIpAssignmentById | internal/service/sesv2/dedicated_ip_assignment.go:133-163 | `NotFoundException` becomes a not-found error with the request; other API errors pass unchanged; a nil output or record is an empty result; a found record's pool is always the ID's pool |
| DedicatedIpAssignment.LookupSucceedsExactlyInIdPool | internal/service/sesv2/dedicated_ip_assignment.go:152-162 | the lookup succeeds exactly when the API returned a record in the ID's pool, and then returns it unchanged; a nil or different pool is not found for an incorrect pool assignment |
| DedicatedIpAssignment.LookupOfComposedId | internal/service/sesv2/dedicated_ip_assignment.go:133-162 | for an ID built from `ip` and `pool`, the lookup asks about `ip` and accepts a record exactly when its pool is `pool` |
| DedicatedIpAssignment.Read | internal/service/sesv2/dedicated_ip_assignment.go:79-96 | not found on a resource already in state clears the ID without error; not found on a new resource, or any other error, is reported with the data unchanged; on success the ID stays and the pool is the ID's pool |
| DedicatedIpAssignment.Create | internal/service/sesv2/dedicated_ip_assignment.go:60-77 | a failed put sets no ID and reports the error; a successful put sets the composed ID and hands over to Read; Create never ends without error unless the composed ID is in state |
| DedicatedIpAssignment.DeleteRequest | internal/service/sesv2/dedicated_ip_assignment.go:98-106 | Delete puts the ID's IP into `ses-default-dedicated-pool` |
| DedicatedIpAssignment.Delete | internal/service/sesv2/dedicated_ip_assignment.go:98-118 | Delete reports an error exactly when the put failed with something other than `NotFoundException`, and then reports that error against the ID |
| DedicatedIpAssignment.CreateRecordsConfiguredAssignment | internal/service/sesv2/dedicated_ip_assignment.go:68-76 | a Create without error leaves exactly the configured IP's ID and pool in state, which requires the put to succeed and the API to report the configured pool |
| DedicatedIpAssignment.ReadDropsDriftedAssignment | internal/service/sesv2/dedicated_ip_assignment.go:82-87 | an IP found in a pool other than the ID's is removed from state on Read, without error |
| DedicatedIpAssignment.ReadIdempotent | internal/service/sesv2/dedicated_ip_assignment.go:82-95 | reading again after a successful Read, against the same API answer, gives the same result |
| DedicatedIpAssignment.DeleteRehomesToDefaultPool | internal/service/sesv2/dedicated_ip_assignment.go:100-106 | for an ID built from `ip` and any pool, Delete re-assigns `ip` to the default pool |
| StateChange.WaitForState | internal/service/lexmodels/wait.go:31 | (assumed waiter) success without a payload happens exactly when the target is empty; the waiter attaches no reason to its own errors |
| StateChange.Run | internal/service/lexmodels/wait.go:31 | (assumed waiter loop) an unexpected state is in neither pending nor target; success returns no payload exactly when the target is empty |
| StateChange.WaitDecidedByFirstStop | internal/service/lexmodels/wait.go:20-31 | (assumed waiter) the wait ends with the verdict of the first poll that does not say "keep polling" |
| StateChange.WaitTimesOut | internal/service/lexmodels/wait.go:28-31 | (assumed waiter) if every poll says "keep polling", the wait times out with the last poll's state and no payload |
| StateChange.WaitSucceedsIffConverged | internal/service/lexmodels/wait.go:20-31 | (assumed waiter) a wait succeeds exactly when some poll converges after only "keep polling" polls |
| StateChange.EmptyTargetSucceedsOnlyOnAbsence | internal/service/lexmodels/wait.go:72 | (assumed waiter) with an empty target, success only comes from the resource being gone, with a nil payload |
| StateChange.WaitIgnoresLaterPolls | internal/service/lexmodels/wait.go:31 | (assumed waiter) polls after the deciding one do not change the outcome |
| StateChange.SetLastError | internal/service/lexmodels/wait.go:35 | (assumed helper) never turns a nil error into an error and never changes its kind; it fills in the reason only of a timeout or unexpected-state error that has none, leaving its state and expected states as they were |
| LexWait.BotVersionCreatedConf | internal/service/lexmodels/wait.go:19-29 | the build wait uses the caller's timeout |
| LexWait.BotDeletedConf | internal/service/lexmodels/wait.go:44-54 | the bot delete wait uses the caller's timeout |
| LexWait.BotAliasDeletedConf | internal/service/lexmodels/wait.go:69-75 | the bot-alias delete wait uses the fixed 5-minute timeout |
| LexWait.IntentDeletedConf | internal/service/lexmodels/wait.go:85-91 | the intent delete wait uses the fixed 5-minute timeout |
| LexWait.SlotTypeDeletedConf | internal/service/lexmodels/wait.go:101-107 | the slot-type delete wait uses the package's slot-type delete timeout |
| LexWait.PostProcessBot | internal/service/lexmodels/wait.go:31-41 | a bot payload is returned unchanged; its `FailureReason` goes to `SetLastError` exactly when its status is `FAILED`; otherwise, and for any other payload, the error passes unchanged; a non-bot payload gives a nil output |
| LexWait.WaitBotVersionCreated | internal/service/lexmodels/wait.go:19-42 | the output is the waiter's payload when it is a bot, and nil otherwise |
| LexWait.WaitBotDeleted | internal/service/lexmodels/wait.go:44-67 | the output is the waiter's payload when it is a bot, and nil otherwise |
| LexWait.WaitBotAliasDeleted | internal/service/lexmodels/wait.go:69-83 | the waiter's error passes unchanged; the output is its payload when that is a bot alias, and nil otherwise |
| LexWait.WaitIntentDeleted | internal/service/lexmodels/wait.go:85-99 | the waiter's error passes unchanged; the output is its payload when that is an intent-versions output, and nil otherwise |
| LexWait.WaitSlotTypeDeleted | internal/service/lexmodels/wait.go:101-115 | the waiter's error passes unchanged; the output is its payload when that is a slot type, and nil otherwise |
| LexWait.PendingAndTargetDisjoint | internal/service/lexmodels/wait.go:21-26 | in all five configurations no label is both pending and target |
| LexWait.FailedIsNeitherPendingNorTarget | internal/service/lexmodels/wait.go:21-26 | `FAILED` is in neither list of either bot waiter |
| LexWait.BotDeletedPendsOnBuiltStatuses | internal/service/lexmodels/wait.go:46-50 | the bot delete wait's pending list is the build wait's target list |
| LexWait.ServiceDeleteWaitersPendOnCreated | internal/service/lexmodels/wait.go:69-107 | the alias, intent and slot-type delete waits pend on `CREATED` alone, and all four delete waits have an empty target |
| LexWait.BotVersionFailedSurfacesReason | internal/service/lexmodels/wait.go:31-38 | a `FAILED` bot after building polls ends the build wait as an unexpected state carrying the bot and its failure reason, never as success |
| LexWait.BotDeletedFailedSurfacesReason | internal/service/lexmodels/wait.go:56-63 | a bot that turns `FAILED` while being deleted ends the delete wait as an unexpected state carrying its failure reason |
| LexWait.BotReasonAttachedOnlyForFailedBot | internal/service/lexmodels/wait.go:33-38 | bot post-processing changes the error exactly when the payload is a failed bot and the waiter timed out or met an unexpected state; a success stays a success |
| LexWait.DeleteWaitersSucceedOnlyOnAbsence | internal/service/lexmodels/wait.go:44-115 | each delete waiter that succeeds saw the resource gone and returns a nil output |
| LexWait.BotVersionCreatedSucceedsOnBuiltStatus | internal/service/lexmodels/wait.go:20-38 | a successful build wait stopped at the first poll that did not keep it polling (every earlier poll was `BUILDING` or found no bot), that poll had a built status, and the output is that poll's payload when it is a bot |
| LexWait.DeleteWaitersSucceedOnAbsence | internal/service/lexmodels/wait.go:44-115 | for each delete waiter, polls in its pending list followed by the resource being gone end the wait with a nil output and no error |
| LexWait.BotWaitersTimeOutWithoutOutput | internal/service/lexmodels/wait.go:31-41 | a bot waiter that times out returns a nil output and the waiter's timeout error unchanged |
| LexWait.BuildThenReadyScenario | internal/service/lexmodels/wait.go:19-42 | two `BUILDING` polls and then a `READY` bot end the build wait with the ready bot and no error |

## Left out

- The SES v2 and Lex API calls are network I/O. Each call's answer is a parameter (`GetDedicatedIpResponse`, `PutResponse`), or a sequence of polls.
- The refresh functions `statusBotVersion`, `statusBotAlias`, `statusIntent` and `statusSlotType` are not part of this model. A waiter records which one it configured (`Refresh`) and takes their results as polls.
- The convergence waiter's wall clock, delays, backoff, jitter and context cancellation are not modelled. The deadline is the end of the poll sequence.
- The waiter's limit on repeated nil payloads when the target is not empty is not modelled. Such a poll means "keep polling".
- `DedicatedIpAssignment.IsNotFound` stands for `tfresource.NotFound`, which is not part of this model; it is assumed to mean "is a `resource.NotFoundError`".
- StateChange.WaitForState: the SDK reports an unexpected state only when the pending list is not empty; the model always does. No configuration here has an empty pending list.
- `tfresource.NewEmptyResultError` is assumed to build a not-found error. So Read drops from state a resource whose lookup came back empty.
- `serviceStatusCreated` (`CREATED`), `BotVersionLatest` and `SlotTypeVersionLatest` (`$LATEST`) are defined outside the modelled files; their values are taken as given. `slotTypeDeleteTimeout` is also defined elsewhere and is a parameter.
- Terraform schema plumbing, `d.Get`/`d.Set` typing, diagnostic formatting, logging, the importer and the IP-address validator are framework glue. They are not modelled.
- The `Create`/`Delete` timeouts of 30 minutes in the resource schema are not used by any handler decision, so they are not modelled.
- `types.DedicatedIp` and the Lex outputs keep only the fields the code reads or that identify them.
