# Call store and actions store, modelled in Dafny

This project models two Redux reducers of a calling/canvassing client.

- **The call store** (`src/store/calls.js`). It keeps the id of the current call (`currentId`) and a flag for a call being started (`currentIsPending`). It also keeps the pool of calls keyed by id (`allCalls`) and the ordered list of calls still awaiting a report (`activeCalls`). A call may embed a `report`, the record the post-call wizard fills in. Setting a report field runs an ordered decision list, which picks the next wizard step from `REPORT_STEPS`.
- **The actions store** (`src/store/actions.js`). It fetches the organisation's action list and merges it by id, tagging each record with `org_id`. It also keeps a map of the caller's responses, keyed by action id.

Each handler is a Dafny function from the old state and the action's payload to the new state. The source builds its new states the same way, as persistent values. The one loop in the source is the `forEach` of the action-list fulfilment. It is modelled as a method with a loop invariant, `Actions.CollectActions`.

Files:

- `wrappers.dfy`: `Option` and `Result`.
- `js_values.dfy`: the JavaScript values the stores handle. This covers truthiness and the string a value becomes when it is used as a property name.
- `report_wizard.dfy`: `REPORT_STEPS`, the default report and the decision list. It also holds a reference transition table whose rows never overlap, and the proof that the decision list computes the table's choice.
- `calls.dfy`: the call store state, the `currentCall` selector, every handler, and the reducer table `Reduce` with runs of actions `Run`.
- `calls_properties.dfy`: lemmas about the call store. These cover single handlers, the scenarios of the wizard and of submitting, and an invariant every reachable state keeps.
- `actions.dfy`: the actions store, its handlers, lemmas and invariant.

Modelling decisions:

- A report is a `map<string, Value>`, as an Immutable Map is. `SET_CALL_REPORT_FIELD` can write any field name. When no branch of the decision list matches, `step` holds `undefined` (`Undefined`). The decision list returns `Option<string>`, and `None` is that missing fallback.
- The keys of `allCalls` are `Option<string>`. The handlers that act on the current call use `currentId` without checking it. Before any call has started, `currentId` is `null`, so those handlers write under the `null` key (`None`). The `currentCall` selector reads the same key.
- `setIn` on a path whose call or report is missing creates them empty, as Immutable does. `updateIn` hands `undefined` to its updater. So `SET_CALL_REPORT_FIELD` on a missing report throws a `TypeError`, which is modelled as `Err(TypeError)`. In `Run`, an action whose handler throws leaves the state unchanged.
- `list.findKey` then `list.delete` removes the first occurrence of the id. When the id is absent, `findKey` gives `undefined` and Immutable's `delete` of a non-index keeps the list unchanged.

Behaviour a reader might expect, and what the code does instead:

- One might expect `activeCalls` never to hold an id twice. The code has no duplicate check: a start fulfilment with an id already on the list appends it again (`CallsProperties.StartWithKnownIdDuplicates`). The list stays duplicate-free only while the service hands out fresh ids.
- One might expect a new submit to clear an earlier `error`, and a successful submit to clear it too. The code clears it in neither phase (`CallsProperties.SubmitRetryKeepsError`).
- One might expect `step` always to be one of `REPORT_STEPS`. In the code, an unmatched field leaves it `undefined`, and `SET_CALL_REPORT_STEP` stores any value.
- One might expect a report to exist only after the caller enters the report stage. In the code, every `setIn`-based handler creates one.

## Model

| member | source | states |
|---|---|---|
| JsValues.Truthy | src/store/calls.js:82-110 | a value is falsy exactly when it is undefined, null, false, 0 or the empty string |
| JsValues.PropertyKey | src/store/actions.js:34 | a string id is used as its own key, and a numeric id's key starts with a digit exactly when the number is not negative |
| JsValues.NatToDecimalInjective | src/store/actions.js:34 | different natural numbers are written with different digit strings |
| JsValues.NumericKeys | src/store/actions.js:34 | two numeric ids share a key only when they are equal, while a numeric id and the string of its digits share one |
| ReportWizard.ReportStepsShape | src/store/calls.js:19-28 | the eight steps are distinct, the first is success_or_failure and the last is summary |
| ReportWizard.DefaultReportShape | src/store/calls.js:60-70 | the default report has exactly the nine wizard fields: the first step, four false flags, two nulls and two empty logs, and no isPending or error |
| ReportWizard.NextStep | src/store/calls.js:80-111 | the chosen step is always one of REPORT_STEPS; no step is chosen exactly when the field is none of the six fields the list tests |
| ReportWizard.ApplyField | src/store/calls.js:113-116 | an edit stores the value under the field, sets `step` to the decision list's choice (undefined when none), adds only those two keys and keeps every other entry |
| ReportWizard.LastEditDecidesStep | src/store/calls.js:82-116 | after any run of edits, `step` is what the decision list maps the last edit to, whatever the earlier edits and starting step |
| ReportWizard.DecisionBranches | src/store/calls.js:82-111 | branch by branch: success truthy/falsy, targetCouldTalk truthy/falsy, callBackAfter, failureReason noPickup/other, leftMessage, organizerActionNeeded truthy/falsy |
| ReportWizard.TransitionTableIsExclusive | src/store/calls.js:82-111 | no edit matches two rows of the reference transition table |
| ReportWizard.NextStepFollowsTable | src/store/calls.js:82-111 | the order-dependent if/else chain equals the first matching row of the reference table |
| ReportWizard.NextStepIsMatchingRow | src/store/calls.js:82-111 | any row matching the edit names the chosen step, and no step is chosen exactly when no row matches |
| Calls.CurrentCall | src/store/calls.js:7-10 | the selector returns the call stored under currentId, and nothing when no call is stored there |
| Calls.SetInReport | src/store/calls.js:119-170 | the `setIn` into a call's report: the named entry reads the new value, the report exists afterwards, a missing call is created with no record fields, and every other entry, call and state field is kept |
| Calls.FindKey | src/store/calls.js:172 | gives the first index holding the id, and none exactly when the id is absent |
| Calls.ListDelete | src/store/calls.js:173 | deleting an index shifts the later elements down by one; a missing or out-of-range index leaves the list unchanged |
| Calls.RemoveFirstOccurrence | src/store/calls.js:171-174 | removes exactly one copy of the id (the first) and keeps the others in order; an absent id leaves the list unchanged |
| Calls.StartCallPending | src/store/calls.js:36-39 | sets currentIsPending and changes nothing else |
| Calls.StartCallFulfilled | src/store/calls.js:41-50 | the returned id becomes current and not pending, the call is stored under it with the other calls kept, and the id is appended to activeCalls |
| Calls.EnterLaneStep | src/store/calls.js:52-75 | the "report" lane step puts the default report on the current call and changes nothing else; any other lane step changes nothing |
| Calls.SetReportField | src/store/calls.js:77-117 | throws exactly when the current call has no report; otherwise the report is the edited one, `step` is the decision list's choice and nothing outside that report changes |
| Calls.SetReportStep | src/store/calls.js:119-125 | overwrites only `step` with the given value, without a membership check |
| Calls.SetCallerLog | src/store/calls.js:127-133 | changes only callerLog; `step` and every other entry are kept |
| Calls.SetOrganizerLog | src/store/calls.js:135-141 | changes only organizerLog; `step` and every other entry are kept |
| Calls.FinishReport | src/store/calls.js:143-148 | sets `step` to summary and changes nothing else |
| Calls.SubmitReportPending | src/store/calls.js:150-155 | sets isPending on the report of the submitted call id, not the current one; error and every other entry are kept |
| Calls.SubmitReportError | src/store/calls.js:157-164 | stores the error payload on that report; isPending and everything else are kept |
| Calls.SubmitReportFulfilled | src/store/calls.js:166-175 | clears isPending on that report, removes the first occurrence of the id from activeCalls keeping the order of the rest, and keeps currentId and the other calls |
| CallsProperties.StartedCallIsCurrent | src/store/calls.js:7-10 | after start fulfilment the selector returns the new call, and its id sits once more on activeCalls |
| CallsProperties.StartWithFreshIdKeepsDistinct | src/store/calls.js:49 | appending a fresh id keeps activeCalls free of duplicates |
| CallsProperties.TwoStartsKeepDistinct | src/store/calls.js:41-50 | two starts in a row with different fresh ids leave activeCalls free of duplicates |
| CallsProperties.StartWithKnownIdDuplicates | src/store/calls.js:49 | there is no duplicate check: an id already on the list is appended a second time |
| CallsProperties.EnterReportResets | src/store/calls.js:58-70 | entering the report stage sets step to success_or_failure, the four flags to false, callBackAfter and failureReason to null, both logs to empty, and drops isPending and error |
| CallsProperties.EnterLaneStepIdempotent | src/store/calls.js:52-75 | entering a lane step twice gives the same state as entering it once |
| CallsProperties.UnmatchedFieldLeavesStepUndefined | src/store/calls.js:80-116 | editing a field no branch tests still stores the value, but leaves `step` undefined, which is no member of REPORT_STEPS |
| CallsProperties.EditWithoutReportThrows | src/store/calls.js:113-116 | editing a missing report, or the report of a missing call, throws |
| CallsProperties.FinishReportIgnoresStep | src/store/calls.js:143-148 | finishing gives the same state whatever step was set before, and finishing twice is finishing once |
| CallsProperties.SuccessCallBackScenario | src/store/calls.js:82-93 | success true leads to success_could_talk, then targetCouldTalk false to success_call_back, then callBackAfter to caller_log, with all three values stored |
| CallsProperties.FailureScenario | src/store/calls.js:94-102 | success false leads to failure_reason, and then noPickup to failure_message while any other reason leads to caller_log |
| CallsProperties.FailedSubmitStaysPending | src/store/calls.js:150-164 | after pending then error, the report is still pending and holds the error; activeCalls is untouched |
| CallsProperties.SubmitRetryKeepsError | src/store/calls.js:150-175 | pending, error, pending, fulfilled: isPending ends false and one copy of the id leaves activeCalls, but the stored error survives |
| CallsProperties.SubmitRemovesOnlyThatId | src/store/calls.js:166-175 | submit fulfilment keeps the count of every other id and shortens the list by one when the id was on it |
| CallsProperties.InitialStateIsEmpty | src/store/calls.js:12-17 | the store starts with no current call, nothing pending, an empty pool and an empty active list, and that state keeps the invariant |
| CallsProperties.ReducePreservesInvariant | src/store/calls.js:31-176 | every handler keeps the invariant that currentId, once set, and every active id name a stored call |
| CallsProperties.RunPreservesInvariant | src/store/calls.js:31-176 | any run of actions keeps that invariant |
| CallsProperties.ReachableStatesKeepInvariant | src/store/calls.js:12-17 | every state reached from the initial state keeps that invariant |
| Actions.Assign | src/store/actions.js:34-36 | writing one property, as `Object.assign` here and the spread at lines 50-53 do, adds only that key, gives it the value, and keeps every other property |
| Actions.TaggedBatchKeys | src/store/actions.js:32-37 | the batch map has exactly the keys of the fetched records' ids |
| Actions.TaggedBatchLastWins | src/store/actions.js:33-37 | under a fetched record's key sits that record tagged with org_id, unless a later record has the same key |
| Actions.TaggedBatchCarriesOrgId | src/store/actions.js:34-36 | every record of the batch map has org_id equal to the organisation id |
| Actions.CollectActions | src/store/actions.js:32-37 | the forEach loop builds exactly the tagged batch map, record by record |
| Actions.MergeItems | src/store/actions.js:42-44 | the merged keys are the stored and fetched ones; fetched records win, the others survive, and null items become the fetched map |
| Actions.RetrieveActionsPending | src/store/actions.js:25-29 | sets error null and isPending true and touches nothing else |
| Actions.ActionsFetched | src/store/actions.js:39-44 | the state fulfilment leads to: error null, isPending false, items the old items merged with the tagged batch, responseList untouched |
| Actions.RetrieveActionsFulfilled | src/store/actions.js:31-45 | sets error null, isPending false and items to the old items merged with the tagged batch; responseList is untouched |
| Actions.RetrievedKeys | src/store/actions.js:39-44 | after fulfilment the keys are the old and fetched ones, and an old key absent from the batch keeps its record |
| Actions.RetrievedRecordWins | src/store/actions.js:33-44 | after fulfilment the key of the last fetched record with that key holds it, tagged, whatever was stored before |
| Actions.FirstRetrievalStoresBatch | src/store/actions.js:42-44 | when items was null it becomes exactly the tagged batch map |
| Actions.ResponseRecord | src/store/actions.js:50-53 | the response record has action_id equal to the action id and keeps every other payload field |
| Actions.UpdateResponseFulfilled | src/store/actions.js:47-63 | a truthy responseBool stores the response under the action id, a falsy one deletes that key; other responses, actionList, isPending and error are kept |
| Actions.DeleteMissingResponse | src/store/actions.js:60-63 | deleting a response that is not there changes nothing |
| Actions.InitialStateIsEmpty | src/store/actions.js:7-18 | the store starts with no action list, no responses and nothing pending or failed, and that state keeps the invariant |
| Actions.ReducePreservesInvariant | src/store/actions.js:20-65 | every handler keeps the invariant that stored actions carry org_id and stored responses carry their own action_id |
| Actions.RunPreservesInvariant | src/store/actions.js:20-65 | any run of actions keeps that invariant |
| Actions.ReachableStatesKeepInvariant | src/store/actions.js:7-18 | every state reached from the initial state keeps that invariant |

## Left out

- The `@@INIT` handlers (src/store/calls.js:32-34, src/store/actions.js:21-23) are left out. They convert the plain initial object into Immutable structures, and the model's states are Dafny values from the start.
- The dispatch plumbing of `redux-create-reducer` is not modelled. `Reduce` is only the table from action to handler, and an unknown action type is not represented.
- The `toString` conversions of ids are not modelled. Call ids and action ids are strings from the start.
- `immutable.fromJS` deep conversion is not modelled. Call records, error payloads and fetched records are stored as given. Nested objects and arrays are opaque `Object` values.
- JavaScript numbers are modelled as unbounded integers. NaN and fractional numbers are not represented.
- JsValues.PropertyKey: does not model JavaScript's number-to-string rules beyond plain integers. `String(1e21)` is `"1e+21"`, but the model writes all the digits. Integers past 2^53 are not JavaScript numbers at all, but `Num` admits them. Every non-primitive value becomes `"[object Object]"`, which is wrong for arrays (their elements joined) and dates (their date text).
- `Object.assign` mutates each fetched record in place. The model builds a new tagged record, so it does not capture aliasing between the payload and the stored records.
- The branch of src/store/actions.js:58 (`items` falsy, via `immutable.toJS`) is left out. Its library call's behaviour is not part of this model, and the branch cannot run: `responseList.items` starts as `{}` and no handler makes it falsy. The model's type for it is always a map.
- src/actions/survey.js is not part of this model. Its thunks read the state and dispatch network requests to the remote service.
- The promise middleware that turns a remote request into `_PENDING`, `_FULFILLED` and `_ERROR` actions is not modelled. Only the handlers of those actions are.
- `Calls.Lookup` reads a missing report entry and an entry holding `undefined` alike, as `getIn` does. The report's key set is stated separately.
