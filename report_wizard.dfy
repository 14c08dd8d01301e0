/**
  The report wizard of the call store: the fixed list of wizard steps,
  the record a report starts from, and the ordered decision list that
  picks the next step after a report field is edited.
*/
module ReportWizard {
  import opened Wrappers
  import opened JsValues

  /** A report as the store holds it: an immutable map from field name to
      value.  Any field name can be written into it. */
  type Report = map<string, Value>

  /** `REPORT_STEPS`, in their declared order. */
  const ReportSteps: seq<string> := [
    "success_or_failure",
    "success_could_talk",
    "success_call_back",
    "failure_reason",
    "failure_message",
    "caller_log",
    "organizer_log",
    "summary"
  ]

  /** The record written when the caller enters the "report" lane step.
      It has neither `isPending` nor `error`. */
  const DefaultReport: Report := map[
    "step" := Str(ReportSteps[0]),
    "success" := Bool(false),
    "targetCouldTalk" := Bool(false),
    "callBackAfter" := Null,
    "failureReason" := Null,
    "leftMessage" := Bool(false),
    "callerLog" := Str(""),
    "organizerActionNeeded" := Bool(false),
    "organizerLog" := Str("")
  ]

  /** The eight steps are distinct, start with the success-or-failure
      question and end with the summary. */
  lemma ReportStepsShape()
    ensures |ReportSteps| == 8
    ensures forall i, j :: 0 <= i < j < |ReportSteps| ==> ReportSteps[i] != ReportSteps[j]
    ensures ReportSteps[0] == "success_or_failure" && ReportSteps[|ReportSteps| - 1] == "summary"
  {
  }

  /** The default report holds exactly the nine wizard fields: the first
      step, four false flags, two nulls and two empty logs. */
  lemma DefaultReportShape()
    ensures DefaultReport.Keys == {"step", "success", "targetCouldTalk", "callBackAfter", "failureReason",
                                   "leftMessage", "callerLog", "organizerActionNeeded", "organizerLog"}
    ensures DefaultReport["step"] == Str(ReportSteps[0])
    ensures forall f :: f in {"success", "targetCouldTalk", "leftMessage", "organizerActionNeeded"} ==> DefaultReport[f] == Bool(false)
    ensures DefaultReport["callBackAfter"] == Null && DefaultReport["failureReason"] == Null
    ensures DefaultReport["callerLog"] == Str("") && DefaultReport["organizerLog"] == Str("")
    ensures "isPending" !in DefaultReport && "error" !in DefaultReport
  {
  }

  /** The fields some branch of the decision list tests for. */
  const DecisionFields: set<string> := {
    "success", "targetCouldTalk", "callBackAfter",
    "failureReason", "leftMessage", "organizerActionNeeded"
  }

  /** The decision list, branch by branch in the order the store tests
      them.  `None` is the `undefined` left in `nextStep` when no branch
      matches. */
  function NextStep(field: string, value: Value): (next: Option<string>)
    ensures next.Some? ==> next.value in ReportSteps
    ensures next.None? <==> field !in DecisionFields
  {
    if field == "success" && Truthy(value) then Some("success_could_talk")
    else if field == "targetCouldTalk" && Truthy(value) then Some("caller_log")
    else if field == "targetCouldTalk" && !Truthy(value) then Some("success_call_back")
    else if field == "callBackAfter" then Some("caller_log")
    else if field == "success" then Some("failure_reason")
    else if field == "failureReason" && value == Str("noPickup") then Some("failure_message")
    else if field == "failureReason" then Some("caller_log")
    else if field == "leftMessage" then Some("caller_log")
    else if field == "organizerActionNeeded" && Truthy(value) then Some("organizer_log")
    else if field == "organizerActionNeeded" then Some("summary")
    else None
  }

  /** What the store writes into `step`: the chosen step's name, or
      `undefined` when the decision list chose none. */
  function StepValue(next: Option<string>): Value
  {
    match next
    case Some(name) => Str(name)
    case None => Undefined
  }

  /** One edit of the wizard: store `value` under `field`, then overwrite
      `step` with the decision list's choice. */
  function ApplyField(report: Report, field: string, value: Value): (r: Report)
    ensures r.Keys == report.Keys + {field, "step"}
    ensures r["step"] == StepValue(NextStep(field, value))
    ensures field != "step" ==> r[field] == value
    ensures forall k :: k in report && k != field && k != "step" ==> r[k] == report[k]
  {
    report[field := value]["step" := StepValue(NextStep(field, value))]
  }

  /** A run of edits applied in order. */
  function ApplyFields(report: Report, edits: seq<(string, Value)>): Report
    decreases |edits|
  {
    if edits == [] then report
    else ApplyFields(ApplyField(report, edits[0].0, edits[0].1), edits[1..])
  }

  /** After any run of edits, `step` is what the decision list maps the
      last edit to, whatever the earlier edits and the starting step. */
  lemma {:induction false} LastEditDecidesStep(report: Report, edits: seq<(string, Value)>)
    requires edits != []
    ensures "step" in ApplyFields(report, edits)
    ensures ApplyFields(report, edits)["step"] == StepValue(NextStep(edits[|edits| - 1].0, edits[|edits| - 1].1))
    decreases |edits|
  {
    if |edits| > 1 {
      LastEditDecidesStep(ApplyField(report, edits[0].0, edits[0].1), edits[1..]);
    }
  }

  /** Every branch the decision list has, stated field by field; the
      falsy test on `success` and the "any other reason" test on
      `failureReason` are what the order of the branches buys. */
  lemma DecisionBranches(value: Value)
    ensures NextStep("success", value)
      == Some(if Truthy(value) then "success_could_talk" else "failure_reason")
    ensures NextStep("targetCouldTalk", value)
      == Some(if Truthy(value) then "caller_log" else "success_call_back")
    ensures NextStep("callBackAfter", value) == Some("caller_log")
    ensures NextStep("failureReason", value)
      == Some(if value == Str("noPickup") then "failure_message" else "caller_log")
    ensures NextStep("leftMessage", value) == Some("caller_log")
    ensures NextStep("organizerActionNeeded", value)
      == Some(if Truthy(value) then "organizer_log" else "summary")
  {
  }

  // A reference form of the decision list: the wizard's transition table
  // with one row per (field, value test), whose tests never overlap.

  datatype Test = AnyValue | IsTruthy | IsFalsy | Is(v: Value) | IsNot(v: Value)

  datatype Row = Row(field: string, test: Test, next: string)

  const TransitionTable: seq<Row> := [
    Row("success", IsTruthy, "success_could_talk"),
    Row("targetCouldTalk", IsTruthy, "caller_log"),
    Row("targetCouldTalk", IsFalsy, "success_call_back"),
    Row("callBackAfter", AnyValue, "caller_log"),
    Row("success", IsFalsy, "failure_reason"),
    Row("failureReason", Is(Str("noPickup")), "failure_message"),
    Row("failureReason", IsNot(Str("noPickup")), "caller_log"),
    Row("leftMessage", AnyValue, "caller_log"),
    Row("organizerActionNeeded", IsTruthy, "organizer_log"),
    Row("organizerActionNeeded", IsFalsy, "summary")
  ]

  predicate Passes(t: Test, value: Value)
  {
    match t
    case AnyValue => true
    case IsTruthy => Truthy(value)
    case IsFalsy => !Truthy(value)
    case Is(v) => value == v
    case IsNot(v) => value != v
  }

  predicate Matches(row: Row, field: string, value: Value)
  {
    row.field == field && Passes(row.test, value)
  }

  /** The first row of `rows` that matches the edit. */
  function FirstMatch(rows: seq<Row>, field: string, value: Value): (next: Option<string>)
    ensures next.None? <==> forall i :: 0 <= i < |rows| ==> !Matches(rows[i], field, value)
    ensures next.Some? ==> exists i :: 0 <= i < |rows| && Matches(rows[i], field, value)
                                      && rows[i].next == next.value
    decreases |rows|
  {
    if rows == [] then None
    else if Matches(rows[0], field, value) then Some(rows[0].next)
    else
      var rest := FirstMatch(rows[1..], field, value);
      assert forall i :: 1 <= i < |rows| ==> rows[i] == rows[1..][i - 1];
      rest
  }

  /** No edit matches two different rows, so row order is irrelevant. */
  ghost predicate Exclusive(rows: seq<Row>)
  {
    forall i, j, field, value ::
      0 <= i < j < |rows| && Matches(rows[i], field, value) ==> !Matches(rows[j], field, value)
  }

  lemma TransitionTableIsExclusive()
    ensures Exclusive(TransitionTable)
  {
    forall i, j, field, value | 0 <= i < j < |TransitionTable| && Matches(TransitionTable[i], field, value)
      ensures !Matches(TransitionTable[j], field, value)
    {
    }
  }

  /** In a table without overlapping rows, a matching row is the one
      chosen. */
  lemma MatchingRowIsChosen(rows: seq<Row>, field: string, value: Value, k: nat)
    requires Exclusive(rows)
    requires k < |rows| && Matches(rows[k], field, value)
    ensures FirstMatch(rows, field, value) == Some(rows[k].next)
  {
  }

  /** The store's if/else chain computes exactly the table's choice. */
  lemma NextStepFollowsTable(field: string, value: Value)
    ensures NextStep(field, value) == FirstMatch(TransitionTable, field, value)
  {
    var k: nat;
    if field == "success" {
      k := if Truthy(value) then 0 else 4;
    } else if field == "targetCouldTalk" {
      k := if Truthy(value) then 1 else 2;
    } else if field == "callBackAfter" {
      k := 3;
    } else if field == "failureReason" {
      k := if value == Str("noPickup") then 5 else 6;
    } else if field == "leftMessage" {
      k := 7;
    } else if field == "organizerActionNeeded" {
      k := if Truthy(value) then 8 else 9;
    } else {
      assert forall i :: 0 <= i < |TransitionTable| ==> TransitionTable[i].field in DecisionFields;
      return;
    }
    TransitionTableIsExclusive();
    MatchingRowIsChosen(TransitionTable, field, value, k);
  }

  /** Whichever row matches an edit names the step the store moves to;
      and the store leaves `step` undefined exactly when no row matches. */
  lemma NextStepIsMatchingRow(field: string, value: Value)
    ensures forall i :: 0 <= i < |TransitionTable| && Matches(TransitionTable[i], field, value)
              ==> NextStep(field, value) == Some(TransitionTable[i].next)
    ensures (NextStep(field, value).None?)
        <==> (forall i :: 0 <= i < |TransitionTable| ==> !Matches(TransitionTable[i], field, value))
  {
    NextStepFollowsTable(field, value);
    forall i | 0 <= i < |TransitionTable| && Matches(TransitionTable[i], field, value)
      ensures NextStep(field, value) == Some(TransitionTable[i].next)
    {
      TransitionTableIsExclusive();
      MatchingRowIsChosen(TransitionTable, field, value, i);
    }
  }
}
