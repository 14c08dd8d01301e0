/** What the call store's handlers promise, one call at a time and over
    runs of actions. */
module CallsProperties {
  import opened Wrappers
  import opened JsValues
  import opened ReportWizard
  import opened Calls

  // ---------------------------------------------------------------------
  // Starting a call

  /** After start-call fulfilment the new call is the current call, and its
      id sits once more on the active-calls list than before. */
  lemma StartedCallIsCurrent(s: CallsState, id: string, call: Call)
    ensures CurrentCall(StartCallFulfilled(s, id, call)) == Some(call)
    ensures multiset(StartCallFulfilled(s, id, call).activeCalls)[id] == multiset(s.activeCalls)[id] + 1
  {
  }

  /** A fresh id keeps the active-calls list free of duplicates. */
  lemma StartWithFreshIdKeepsDistinct(s: CallsState, id: string, call: Call)
    requires NoDuplicates(s.activeCalls) && id !in s.activeCalls
    ensures NoDuplicates(StartCallFulfilled(s, id, call).activeCalls)
  {
  }

  /** Two calls started in a row with different fresh ids leave the list
      free of duplicates. */
  lemma TwoStartsKeepDistinct(s: CallsState, a: string, ca: Call, b: string, cb: Call)
    requires NoDuplicates(s.activeCalls) && a !in s.activeCalls && b !in s.activeCalls && a != b
    ensures NoDuplicates(StartCallFulfilled(StartCallFulfilled(s, a, ca), b, cb).activeCalls)
  {
  }

  /** There is no duplicate check: an id already on the list is appended
      again. */
  lemma StartWithKnownIdDuplicates(s: CallsState, id: string, call: Call)
    requires id in s.activeCalls
    ensures !NoDuplicates(StartCallFulfilled(s, id, call).activeCalls)
  {
    var t := StartCallFulfilled(s, id, call);
    var i :| 0 <= i < |s.activeCalls| && s.activeCalls[i] == id;
    assert t.activeCalls[i] == t.activeCalls[|s.activeCalls|];
  }

  // ---------------------------------------------------------------------
  // The report wizard on the current call

  /** Entering the report stage resets every wizard field, puts `step` on
      the first step and drops any earlier submit state. */
  lemma EnterReportResets(s: CallsState)
    ensures var t := EnterLaneStep(s, Str("report"));
      && Lookup(t, s.currentId, "step") == Str("success_or_failure")
      && Lookup(t, s.currentId, "success") == Bool(false)
      && Lookup(t, s.currentId, "targetCouldTalk") == Bool(false)
      && Lookup(t, s.currentId, "leftMessage") == Bool(false)
      && Lookup(t, s.currentId, "organizerActionNeeded") == Bool(false)
      && Lookup(t, s.currentId, "callBackAfter") == Null
      && Lookup(t, s.currentId, "failureReason") == Null
      && Lookup(t, s.currentId, "callerLog") == Str("")
      && Lookup(t, s.currentId, "organizerLog") == Str("")
      && Lookup(t, s.currentId, "isPending") == Undefined
      && Lookup(t, s.currentId, "error") == Undefined
  {
  }

  /** Entering a lane step twice is the same as entering it once. */
  lemma EnterLaneStepIdempotent(s: CallsState, step: Value)
    ensures EnterLaneStep(EnterLaneStep(s, step), step) == EnterLaneStep(s, step)
  {
  }

  /** Editing a field no branch tests for still stores the value, but
      leaves `step` undefined, which is not one of the wizard's steps. */
  lemma UnmatchedFieldLeavesStepUndefined(s: CallsState, field: string, value: Value)
    requires ReportAt(s, s.currentId).Some?
    requires field !in DecisionFields
    ensures SetReportField(s, field, value).Ok?
    ensures Lookup(SetReportField(s, field, value).value, s.currentId, "step") == Undefined
    ensures forall name :: name in ReportSteps ==>
              Lookup(SetReportField(s, field, value).value, s.currentId, "step") != Str(name)
    ensures field != "step" ==> Lookup(SetReportField(s, field, value).value, s.currentId, field) == value
  {
  }

  /** Editing a report the current call does not have throws, and so does
      editing one of a call that does not exist. */
  lemma EditWithoutReportThrows(s: CallsState, field: string, value: Value)
    requires s.currentId !in s.allCalls || s.allCalls[s.currentId].report.None?
    ensures SetReportField(s, field, value) == Err(TypeError)
  {
  }

  /** Finishing jumps to the summary step whatever the step was, and
      finishing twice is finishing once. */
  lemma FinishReportIgnoresStep(s: CallsState, step: Value)
    ensures FinishReport(SetReportStep(s, step)) == FinishReport(s)
    ensures FinishReport(FinishReport(s)) == FinishReport(s)
  {
    var k := s.currentId;
    var call := if k in s.allCalls then s.allCalls[k] else Call(map[], None);
    var report := if call.report.Some? then call.report.value else map[];
    assert report["step" := step]["step" := Str("summary")] == report["step" := Str("summary")];
    var t := FinishReport(s);
    var finished := report["step" := Str("summary")];
    assert t.allCalls[k] == call.(report := Some(finished));
    assert finished["step" := Str("summary")] == finished;
    assert t.allCalls[k := call.(report := Some(finished))] == t.allCalls;
  }

  /** The success/call-back path: talking is asked after success, the
      call-back time after "could not talk", and the caller log after
      that. */
  lemma SuccessCallBackScenario(s: CallsState, when: Value)
    requires ReportAt(s, s.currentId).Some?
    ensures var s1 := SetReportField(s, "success", Bool(true));
      && s1.Ok? && Lookup(s1.value, s.currentId, "step") == Str("success_could_talk")
      && var s2 := SetReportField(s1.value, "targetCouldTalk", Bool(false));
      && s2.Ok? && Lookup(s2.value, s.currentId, "step") == Str("success_call_back")
      && var s3 := SetReportField(s2.value, "callBackAfter", when);
      && s3.Ok? && Lookup(s3.value, s.currentId, "step") == Str("caller_log")
      && Lookup(s3.value, s.currentId, "success") == Bool(true)
      && Lookup(s3.value, s.currentId, "targetCouldTalk") == Bool(false)
      && Lookup(s3.value, s.currentId, "callBackAfter") == when
  {
    var k := s.currentId;
    var s1 := SetReportField(s, "success", Bool(true));
    assert s1.Ok? && s1.value.currentId == k;
    var s2 := SetReportField(s1.value, "targetCouldTalk", Bool(false));
    assert s2.Ok? && s2.value.currentId == k;
    var s3 := SetReportField(s2.value, "callBackAfter", when);
    assert s3.Ok?;
    var r1 := ReportAt(s1.value, k).value;
    var r2 := ReportAt(s2.value, k).value;
    assert r2 == ApplyField(r1, "targetCouldTalk", Bool(false));
    assert ReportAt(s3.value, k).value == ApplyField(r2, "callBackAfter", when);
  }

  /** The failure path: a "noPickup" reason asks for the message step,
      any other reason goes straight to the caller log. */
  lemma FailureScenario(s: CallsState, reason: Value)
    requires ReportAt(s, s.currentId).Some?
    ensures var s1 := SetReportField(s, "success", Bool(false));
      && s1.Ok? && Lookup(s1.value, s.currentId, "step") == Str("failure_reason")
      && var s2 := SetReportField(s1.value, "failureReason", reason);
      && s2.Ok?
      && Lookup(s2.value, s.currentId, "step")
           == Str(if reason == Str("noPickup") then "failure_message" else "caller_log")
  {
  }

  // ---------------------------------------------------------------------
  // Submitting a report

  /** A failed submit leaves the report pending with the error stored. */
  lemma FailedSubmitStaysPending(s: CallsState, callId: string, error: Value)
    ensures var t := SubmitReportError(SubmitReportPending(s, callId), callId, error);
      && Lookup(t, Some(callId), "isPending") == Bool(true)
      && Lookup(t, Some(callId), "error") == error
      && t.activeCalls == s.activeCalls
  {
  }

  /** Retrying after a failed submit: the successful retry clears
      `isPending` and takes the call off the active list, but neither
      the second pending phase nor fulfilment clears the stored error. */
  lemma SubmitRetryKeepsError(s: CallsState, callId: string, error: Value)
    ensures var t := SubmitReportFulfilled(
                       SubmitReportPending(
                         SubmitReportError(SubmitReportPending(s, callId), callId, error),
                         callId),
                       callId);
      && Lookup(t, Some(callId), "isPending") == Bool(false)
      && Lookup(t, Some(callId), "error") == error
      && multiset(t.activeCalls) == multiset(s.activeCalls) - multiset{callId}
      && t.currentId == s.currentId
  {
  }

  /** Submit fulfilment removes the submitted id and no other. */
  lemma SubmitRemovesOnlyThatId(s: CallsState, callId: string, other: string)
    requires other != callId
    ensures multiset(SubmitReportFulfilled(s, callId).activeCalls)[other] == multiset(s.activeCalls)[other]
    ensures callId in s.activeCalls ==>
              |SubmitReportFulfilled(s, callId).activeCalls| + 1 == |s.activeCalls|
  {
  }

  // ---------------------------------------------------------------------
  // An invariant of every reachable state

  /** The current id, once set, names a call in the pool, and so does
      every id on the active-calls list. */
  ghost predicate Invariant(s: CallsState)
  {
    && (s.currentId.Some? ==> s.currentId in s.allCalls)
    && (forall x :: x in s.activeCalls ==> Some(x) in s.allCalls)
  }

  /** The store starts with no current call, nothing pending, an empty
      pool and an empty active list; that state keeps the invariant. */
  lemma InitialStateIsEmpty()
    ensures CurrentCall(InitialState).None? && !InitialState.currentIsPending
    ensures InitialState.allCalls == map[] && InitialState.activeCalls == []
    ensures Invariant(InitialState)
  {
  }

  lemma ReducePreservesInvariant(s: CallsState, a: CallAction)
    requires Invariant(s)
    ensures Reduce(s, a).Ok? ==> Invariant(Reduce(s, a).value)
  {
  }

  lemma {:induction false} RunPreservesInvariant(s: CallsState, actions: seq<CallAction>)
    requires Invariant(s)
    ensures Invariant(Run(s, actions))
    decreases |actions|
  {
    if actions != [] {
      ReducePreservesInvariant(s, actions[0]);
      var next := match Reduce(s, actions[0]) case Ok(t) => t case Err(_) => s;
      RunPreservesInvariant(next, actions[1..]);
    }
  }

  /** Every state the store reaches from its initial state keeps the
      invariant. */
  lemma ReachableStatesKeepInvariant(actions: seq<CallAction>)
    ensures Invariant(Run(InitialState, actions))
  {
    RunPreservesInvariant(InitialState, actions);
  }
}
