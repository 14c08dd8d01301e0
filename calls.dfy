/**
  The call store: the id of the current call, the pool of calls keyed by
  id, the ordered list of calls still awaiting a report, and the handler
  for each action the store reacts to.  Every handler returns a new state
  value; nothing is updated in place.
*/
module Calls {
  import opened Wrappers
  import opened JsValues
  import opened ReportWizard

  /** A key of the call pool.  Handlers that act on the current call use
      `currentId` as the key without checking it, so the key is `None`
      (JavaScript `null`) when no call has been started yet. */
  type CallKey = Option<string>

  /** A call as fetched from the remote service: its record fields, and
      the report embedded under its `report` key, if any. */
  datatype Call = Call(meta: map<string, Value>, report: Option<Report>)

  datatype CallsState = CallsState(
    currentId: CallKey,
    currentIsPending: bool,
    allCalls: map<CallKey, Call>,
    activeCalls: seq<string>)

  /** The exception a handler throws instead of returning a state: a
      property read on `undefined`. */
  datatype Fault = TypeError

  const InitialState := CallsState(None, false, map[], [])

  // ---------------------------------------------------------------------
  // Reading the state

  /** The `currentCall` selector. */
  function CurrentCall(s: CallsState): (c: Option<Call>)
    ensures c.Some? <==> s.currentId in s.allCalls
    ensures c.Some? ==> c.value == s.allCalls[s.currentId]
  {
    if s.currentId in s.allCalls then Some(s.allCalls[s.currentId]) else None
  }

  /** The report of call `k`, if the call exists and has one. */
  function ReportAt(s: CallsState, k: CallKey): Option<Report>
  {
    if k in s.allCalls then s.allCalls[k].report else None
  }

  function ReportKeys(s: CallsState, k: CallKey): set<string>
  {
    match ReportAt(s, k)
    case Some(r) => r.Keys
    case None => {}
  }

  /** `getIn(['allCalls', k, 'report', name])`: `undefined` as soon as a
      step of the path is missing. */
  function Lookup(s: CallsState, k: CallKey, name: string): Value
  {
    match ReportAt(s, k)
    case Some(r) => if name in r then r[name] else Undefined
    case None => Undefined
  }

  /** From `s` to `t` only the report of call `k` changed: the current id,
      the pending flag and every other call are as they were, and call `k`
      keeps its record fields (a call created on the way has none). */
  ghost predicate ReportFrame(s: CallsState, t: CallsState, k: CallKey)
  {
    && t.currentId == s.currentId
    && t.currentIsPending == s.currentIsPending
    && t.allCalls.Keys == s.allCalls.Keys + {k}
    && (forall k' :: k' in s.allCalls && k' != k ==> t.allCalls[k'] == s.allCalls[k'])
    && t.allCalls[k].meta == (if k in s.allCalls then s.allCalls[k].meta else map[])
  }

  /** From `s` to `t` only the entry `name` of call `k`'s report changed:
      the report now exists and every other entry reads as before. */
  ghost predicate ReportEntryFrame(s: CallsState, t: CallsState, k: CallKey, name: string)
  {
    && ReportFrame(s, t, k)
    && ReportAt(t, k).Some?
    && ReportKeys(t, k) == ReportKeys(s, k) + {name}
    && (forall n :: n != name ==> Lookup(t, k, n) == Lookup(s, k, n))
  }

  /** `setIn(['allCalls', k, 'report', name], v)`: a missing call or
      report on the way is created empty first. */
  function SetInReport(s: CallsState, k: CallKey, name: string, v: Value): (t: CallsState)
    ensures Lookup(t, k, name) == v
    ensures ReportEntryFrame(s, t, k, name)
    ensures t.activeCalls == s.activeCalls
  {
    var call := if k in s.allCalls then s.allCalls[k] else Call(map[], None);
    var report := if call.report.Some? then call.report.value else map[];
    s.(allCalls := s.allCalls[k := call.(report := Some(report[name := v]))])
  }

  // ---------------------------------------------------------------------
  // The active-calls list

  /** `list.findKey(val => val === id)`: the first index holding `id`. */
  function FindKey(list: seq<string>, id: string): (i: Option<nat>)
    ensures i.None? <==> id !in list
    ensures i.Some? ==> i.value < |list| && list[i.value] == id && id !in list[..i.value]
    decreases |list|
  {
    if list == [] then None
    else if list[0] == id then Some(0)
    else
      match FindKey(list[1..], id)
      case None => None
      case Some(j) =>
        assert list[1..][..j] == list[1..j + 1];
        Some(j + 1)
  }

  /** `list.delete(key)`: an index outside the list, or none at all,
      leaves the list as it is. */
  function ListDelete(list: seq<string>, key: Option<nat>): (r: seq<string>)
    ensures key.None? || key.value >= |list| ==> r == list
    ensures key.Some? && key.value < |list| ==>
              |r| + 1 == |list|
              && (forall j :: 0 <= j < key.value ==> r[j] == list[j])
              && (forall j :: key.value <= j < |r| ==> r[j] == list[j + 1])
  {
    match key
    case Some(i) => if i < |list| then list[..i] + list[i + 1..] else list
    case None => list
  }

  /** Deleting the first occurrence of `id` removes exactly one copy of
      `id` and no other id, and keeps the rest in order. */
  lemma RemoveFirstOccurrence(list: seq<string>, id: string)
    ensures id !in list ==> ListDelete(list, FindKey(list, id)) == list
    ensures id in list ==> exists i :: 0 <= i < |list| && list[i] == id && id !in list[..i]
                             && ListDelete(list, FindKey(list, id)) == list[..i] + list[i + 1..]
    ensures multiset(ListDelete(list, FindKey(list, id))) == multiset(list) - multiset{id}
  {
    match FindKey(list, id)
    case None =>
      assert multiset(list)[id] == 0;
    case Some(i) =>
      assert list == list[..i] + [id] + list[i + 1..];
      assert multiset(list) == multiset(list[..i]) + multiset{id} + multiset(list[i + 1..]);
  }

  predicate NoDuplicates(list: seq<string>)
  {
    forall i, j :: 0 <= i < j < |list| ==> list[i] != list[j]
  }

  // ---------------------------------------------------------------------
  // Handlers

  /** START_NEW_CALL_PENDING. */
  function StartCallPending(s: CallsState): (t: CallsState)
    ensures t.currentIsPending
    ensures t.currentId == s.currentId && t.allCalls == s.allCalls && t.activeCalls == s.activeCalls
  {
    s.(currentIsPending := true)
  }

  /** START_NEW_CALL_FULFILLED, for the call the service returned under
      id `id` (already turned into a string). */
  function StartCallFulfilled(s: CallsState, id: string, call: Call): (t: CallsState)
    ensures t.currentId == Some(id) && !t.currentIsPending
    ensures t.allCalls.Keys == s.allCalls.Keys + {Some(id)} && t.allCalls[Some(id)] == call
    ensures forall k :: k in s.allCalls && k != Some(id) ==> t.allCalls[k] == s.allCalls[k]
    ensures t.activeCalls == s.activeCalls + [id]
  {
    s.(currentId := Some(id),
       currentIsPending := false,
       allCalls := s.allCalls[Some(id) := call],
       activeCalls := s.activeCalls + [id])
  }

  /** SET_LANE_STEP: entering the "report" lane step replaces the current
      call's report with the default record; any other lane step changes
      nothing. */
  function EnterLaneStep(s: CallsState, step: Value): (t: CallsState)
    ensures step != Str("report") ==> t == s
    ensures step == Str("report") ==>
              ReportFrame(s, t, s.currentId) && t.activeCalls == s.activeCalls
              && ReportAt(t, s.currentId) == Some(DefaultReport)
  {
    if step == Str("report") then
      var k := s.currentId;
      var call := if k in s.allCalls then s.allCalls[k] else Call(map[], None);
      s.(allCalls := s.allCalls[k := call.(report := Some(DefaultReport))])
    else
      s
  }

  /** SET_CALL_REPORT_FIELD: the current call's report takes `value` under
      `field`, and `step` becomes the decision list's choice (`undefined`
      when no branch matched).  Updating a report that does not exist
      throws. */
  function SetReportField(s: CallsState, field: string, value: Value): (r: Result<CallsState, Fault>)
    ensures r.Err? <==> ReportAt(s, s.currentId).None?
    ensures r.Ok? ==>
              && ReportFrame(s, r.value, s.currentId) && r.value.activeCalls == s.activeCalls
              && ReportAt(r.value, s.currentId) == Some(ApplyField(ReportAt(s, s.currentId).value, field, value))
              && Lookup(r.value, s.currentId, "step") == StepValue(NextStep(field, value))
              && (field != "step" ==> Lookup(r.value, s.currentId, field) == value)
  {
    var k := s.currentId;
    match ReportAt(s, k)
    case None => Err(TypeError)
    case Some(report) =>
      Ok(s.(allCalls := s.allCalls[k := s.allCalls[k].(report := Some(ApplyField(report, field, value)))]))
  }

  /** SET_CALL_REPORT_STEP: overwrites `step` with whatever it is given. */
  function SetReportStep(s: CallsState, step: Value): (t: CallsState)
    ensures Lookup(t, s.currentId, "step") == step
    ensures ReportEntryFrame(s, t, s.currentId, "step") && t.activeCalls == s.activeCalls
  {
    SetInReport(s, s.currentId, "step", step)
  }

  /** SET_CALLER_LOG_MESSAGE. */
  function SetCallerLog(s: CallsState, message: Value): (t: CallsState)
    ensures Lookup(t, s.currentId, "callerLog") == message
    ensures ReportEntryFrame(s, t, s.currentId, "callerLog") && t.activeCalls == s.activeCalls
  {
    SetInReport(s, s.currentId, "callerLog", message)
  }

  /** SET_ORGANIZER_LOG_MESSAGE. */
  function SetOrganizerLog(s: CallsState, message: Value): (t: CallsState)
    ensures Lookup(t, s.currentId, "organizerLog") == message
    ensures ReportEntryFrame(s, t, s.currentId, "organizerLog") && t.activeCalls == s.activeCalls
  {
    SetInReport(s, s.currentId, "organizerLog", message)
  }

  /** FINISH_CALL_REPORT: jumps to the summary step. */
  function FinishReport(s: CallsState): (t: CallsState)
    ensures Lookup(t, s.currentId, "step") == Str("summary")
    ensures ReportEntryFrame(s, t, s.currentId, "step") && t.activeCalls == s.activeCalls
  {
    SetInReport(s, s.currentId, "step", Str("summary"))
  }

  /** SUBMIT_CALL_REPORT_PENDING for call `callId`, which need not be the
      current call. */
  function SubmitReportPending(s: CallsState, callId: string): (t: CallsState)
    ensures Lookup(t, Some(callId), "isPending") == Bool(true)
    ensures ReportEntryFrame(s, t, Some(callId), "isPending") && t.activeCalls == s.activeCalls
  {
    SetInReport(s, Some(callId), "isPending", Bool(true))
  }

  /** SUBMIT_CALL_REPORT_ERROR: records the error payload; `isPending` is
      left as it was. */
  function SubmitReportError(s: CallsState, callId: string, error: Value): (t: CallsState)
    ensures Lookup(t, Some(callId), "error") == error
    ensures ReportEntryFrame(s, t, Some(callId), "error") && t.activeCalls == s.activeCalls
  {
    SetInReport(s, Some(callId), "error", error)
  }

  /** SUBMIT_CALL_REPORT_FULFILLED: clears `isPending` and takes the first
      occurrence of `callId` off the active-calls list. */
  function SubmitReportFulfilled(s: CallsState, callId: string): (t: CallsState)
    ensures Lookup(t, Some(callId), "isPending") == Bool(false)
    ensures ReportEntryFrame(s, t, Some(callId), "isPending")
    ensures callId !in s.activeCalls ==> t.activeCalls == s.activeCalls
    ensures callId in s.activeCalls ==>
              exists i :: 0 <= i < |s.activeCalls| && s.activeCalls[i] == callId
                          && callId !in s.activeCalls[..i]
                          && t.activeCalls == s.activeCalls[..i] + s.activeCalls[i + 1..]
    ensures multiset(t.activeCalls) == multiset(s.activeCalls) - multiset{callId}
  {
    RemoveFirstOccurrence(s.activeCalls, callId);
    SetInReport(s, Some(callId), "isPending", Bool(false))
      .(activeCalls := ListDelete(s.activeCalls, FindKey(s.activeCalls, callId)))
  }

  // ---------------------------------------------------------------------
  // The reducer table

  datatype CallAction =
    | StartNewCallPending
    | StartNewCallFulfilled(id: string, call: Call)
    | SetLaneStep(step: Value)
    | SetCallReportField(field: string, value: Value)
    | SetCallReportStep(step: Value)
    | SetCallerLogMessage(message: Value)
    | SetOrganizerLogMessage(message: Value)
    | FinishCallReport
    | SubmitCallReportPending(callId: string)
    | SubmitCallReportError(callId: string, error: Value)
    | SubmitCallReportFulfilled(callId: string)

  function Reduce(s: CallsState, a: CallAction): Result<CallsState, Fault>
  {
    match a
    case StartNewCallPending => Ok(StartCallPending(s))
    case StartNewCallFulfilled(id, call) => Ok(StartCallFulfilled(s, id, call))
    case SetLaneStep(step) => Ok(EnterLaneStep(s, step))
    case SetCallReportField(field, value) => SetReportField(s, field, value)
    case SetCallReportStep(step) => Ok(SetReportStep(s, step))
    case SetCallerLogMessage(message) => Ok(SetCallerLog(s, message))
    case SetOrganizerLogMessage(message) => Ok(SetOrganizerLog(s, message))
    case FinishCallReport => Ok(FinishReport(s))
    case SubmitCallReportPending(callId) => Ok(SubmitReportPending(s, callId))
    case SubmitCallReportError(callId, error) => Ok(SubmitReportError(s, callId, error))
    case SubmitCallReportFulfilled(callId) => Ok(SubmitReportFulfilled(s, callId))
  }

  /** Actions dispatched one after another.  An action whose handler
      throws leaves the state as it was. */
  function Run(s: CallsState, actions: seq<CallAction>): CallsState
    decreases |actions|
  {
    if actions == [] then s
    else
      var next := match Reduce(s, actions[0]) case Ok(t) => t case Err(_) => s;
      Run(next, actions[1..])
  }
}
