/**
  The actions store: the list of actions fetched for an organisation,
  merged by id, and the caller's responses to them, keyed by action id.
*/
module Actions {
  import opened Wrappers
  import opened JsValues

  /** A JSON record as the remote service returns it. */
  type Record = map<string, Value>

  datatype ActionList = ActionList(isPending: bool, error: Value, items: Option<map<string, Record>>)

  datatype ResponseList = ResponseList(isPending: bool, error: Value, items: map<string, Record>)

  datatype ActionsState = ActionsState(actionList: ActionList, responseList: ResponseList)

  /** `actionList.items` starts as `null`, `responseList.items` as `{}`. */
  const InitialState := ActionsState(ActionList(false, Null, None), ResponseList(false, Null, map[]))

  /** A record with one property written over it, as `Object.assign(obj,
      {name: v})` or `{...obj, name: v}` build it. */
  function Assign(r: Record, name: string, v: Value): (t: Record)
    ensures t.Keys == r.Keys + {name}
    ensures t[name] == v
    ensures forall k :: k in r && k != name ==> t[k] == r[k]
  {
    r[name := v]
  }

  /** The key `actions[obj.id] = ...` stores a fetched record under. */
  function KeyOf(r: Record): string
  {
    PropertyKey(if "id" in r then r["id"] else Undefined)
  }

  /** The `actions` object the fulfilment handler builds from a fetched
      batch: each record tagged with the organisation id, stored under its
      id, a later record replacing an earlier one with the same key. */
  function TaggedBatch(batch: seq<Record>, orgId: Value): map<string, Record>
    decreases |batch|
  {
    if batch == [] then map[]
    else
      var n := |batch| - 1;
      TaggedBatch(batch[..n], orgId)[KeyOf(batch[n]) := Assign(batch[n], "org_id", orgId)]
  }

  /** The keys of the fetched records. */
  function BatchKeys(batch: seq<Record>): set<string>
  {
    set i | 0 <= i < |batch| :: KeyOf(batch[i])
  }

  /** The batch map has exactly the keys of the fetched records. */
  lemma {:induction false} TaggedBatchKeys(batch: seq<Record>, orgId: Value)
    ensures TaggedBatch(batch, orgId).Keys == BatchKeys(batch)
    decreases |batch|
  {
    if batch != [] {
      var n := |batch| - 1;
      TaggedBatchKeys(batch[..n], orgId);
      assert forall i :: 0 <= i < n ==> batch[..n][i] == batch[i];
      assert BatchKeys(batch) == BatchKeys(batch[..n]) + {KeyOf(batch[n])};
    }
  }

  /** Under the key of a fetched record sits that record, tagged, unless a
      later record of the batch has the same key. */
  lemma {:induction false} TaggedBatchLastWins(batch: seq<Record>, orgId: Value, i: nat)
    requires i < |batch|
    requires forall j :: i < j < |batch| ==> KeyOf(batch[j]) != KeyOf(batch[i])
    ensures KeyOf(batch[i]) in TaggedBatch(batch, orgId)
    ensures TaggedBatch(batch, orgId)[KeyOf(batch[i])] == Assign(batch[i], "org_id", orgId)
    decreases |batch|
  {
    var n := |batch| - 1;
    if i < n {
      var prefix := batch[..n];
      assert prefix[i] == batch[i];
      assert forall j :: i < j < |prefix| ==> prefix[j] == batch[j];
      TaggedBatchLastWins(prefix, orgId, i);
    }
  }

  /** Every record of the batch map carries the organisation id. */
  lemma {:induction false} TaggedBatchCarriesOrgId(batch: seq<Record>, orgId: Value)
    ensures forall k :: k in TaggedBatch(batch, orgId) ==>
              "org_id" in TaggedBatch(batch, orgId)[k] && TaggedBatch(batch, orgId)[k]["org_id"] == orgId
    decreases |batch|
  {
    if batch != [] {
      TaggedBatchCarriesOrgId(batch[..|batch| - 1], orgId);
    }
  }

  /** The `forEach` loop of the fulfilment handler. */
  method CollectActions(batch: seq<Record>, orgId: Value) returns (actions: map<string, Record>)
    ensures actions == TaggedBatch(batch, orgId)
  {
    actions := map[];
    var i := 0;
    while i < |batch|
      invariant 0 <= i <= |batch|
      invariant actions == TaggedBatch(batch[..i], orgId)
    {
      assert batch[..i + 1][..i] == batch[..i];
      actions := actions[KeyOf(batch[i]) := Assign(batch[i], "org_id", orgId)];
      i := i + 1;
    }
    assert batch[..|batch|] == batch;
  }

  /** `items ? items.merge(fetched) : fetched`: a shallow merge in which a
      fetched record replaces the stored one with the same key. */
  function MergeItems(items: Option<map<string, Record>>, fetched: map<string, Record>): (m: map<string, Record>)
    ensures m.Keys == fetched.Keys + (if items.Some? then items.value.Keys else {})
    ensures forall k :: k in fetched ==> m[k] == fetched[k]
    ensures items.Some? ==> forall k :: k in items.value && k !in fetched ==> m[k] == items.value[k]
  {
    match items
    case Some(stored) => stored + fetched
    case None => fetched
  }

  /** RETRIEVE_ACTIONS_PENDING. */
  function RetrieveActionsPending(s: ActionsState): (t: ActionsState)
    ensures t.actionList.isPending && t.actionList.error == Null
    ensures t.actionList.items == s.actionList.items && t.responseList == s.responseList
  {
    s.(actionList := s.actionList.(error := Null, isPending := true))
  }

  /** The state RETRIEVE_ACTIONS_FULFILLED leads to. */
  function ActionsFetched(s: ActionsState, batch: seq<Record>, orgId: Value): (t: ActionsState)
    ensures !t.actionList.isPending && t.actionList.error == Null
    ensures t.actionList.items == Some(MergeItems(s.actionList.items, TaggedBatch(batch, orgId)))
    ensures t.responseList == s.responseList
  {
    var fetched := TaggedBatch(batch, orgId);
    s.(actionList := ActionList(false, Null, Some(MergeItems(s.actionList.items, fetched))))
  }

  /** RETRIEVE_ACTIONS_FULFILLED for the fetched `batch` of organisation
      `orgId`. */
  method RetrieveActionsFulfilled(s: ActionsState, batch: seq<Record>, orgId: Value) returns (t: ActionsState)
    ensures !t.actionList.isPending && t.actionList.error == Null
    ensures t.actionList.items == Some(MergeItems(s.actionList.items, TaggedBatch(batch, orgId)))
    ensures t.responseList == s.responseList
    ensures t == ActionsFetched(s, batch, orgId)
  {
    var actions := CollectActions(batch, orgId);
    t := s.(actionList := s.actionList.(error := Null, isPending := false,
                                        items := Some(MergeItems(s.actionList.items, actions))));
  }

  /** After fulfilment the stored keys are the old ones and the fetched
      ones, and a key no record of the batch has keeps its old record. */
  lemma RetrievedKeys(s: ActionsState, batch: seq<Record>, orgId: Value)
    ensures var items := ActionsFetched(s, batch, orgId).actionList.items.value;
      && items.Keys == BatchKeys(batch) + (if s.actionList.items.Some? then s.actionList.items.value.Keys else {})
      && (s.actionList.items.Some? ==>
            forall k :: k in s.actionList.items.value && k !in BatchKeys(batch) ==>
              items[k] == s.actionList.items.value[k])
  {
    TaggedBatchKeys(batch, orgId);
  }

  /** After fulfilment, the key of the LAST fetched record with that key
      holds that record, tagged with the organisation id, whatever was
      stored under it before. */
  lemma RetrievedRecordWins(s: ActionsState, batch: seq<Record>, orgId: Value, i: nat)
    requires i < |batch|
    requires forall j :: i < j < |batch| ==> KeyOf(batch[j]) != KeyOf(batch[i])
    ensures KeyOf(batch[i]) in ActionsFetched(s, batch, orgId).actionList.items.value
    ensures ActionsFetched(s, batch, orgId).actionList.items.value[KeyOf(batch[i])]
              == Assign(batch[i], "org_id", orgId)
  {
    TaggedBatchLastWins(batch, orgId, i);
  }

  /** On a list never fetched before, fulfilment stores exactly the batch
      map. */
  lemma FirstRetrievalStoresBatch(s: ActionsState, batch: seq<Record>, orgId: Value)
    requires s.actionList.items.None?
    ensures ActionsFetched(s, batch, orgId).actionList.items == Some(TaggedBatch(batch, orgId))
  {
  }

  /** The response record `{...payload, action_id: actionId}`. */
  function ResponseRecord(payload: Record, actionId: string): (r: Record)
    ensures r.Keys == payload.Keys + {"action_id"}
    ensures "action_id" in r && r["action_id"] == Str(actionId)
    ensures forall k :: k in payload && k != "action_id" ==> k in r && r[k] == payload[k]
  {
    Assign(payload, "action_id", Str(actionId))
  }

  /** UPDATE_ACTION_RESPONSE_FULFILLED: a truthy `responseBool` stores the
      response under the action id, a falsy one deletes that key. */
  function UpdateResponseFulfilled(s: ActionsState, actionId: string, responseBool: Value, payload: Record): (t: ActionsState)
    ensures t.actionList == s.actionList
    ensures t.responseList.isPending == s.responseList.isPending && t.responseList.error == s.responseList.error
    ensures Truthy(responseBool) ==>
              t.responseList.items.Keys == s.responseList.items.Keys + {actionId}
              && t.responseList.items[actionId] == ResponseRecord(payload, actionId)
    ensures !Truthy(responseBool) ==> t.responseList.items.Keys == s.responseList.items.Keys - {actionId}
    ensures forall k :: k in s.responseList.items && k != actionId ==>
              k in t.responseList.items && t.responseList.items[k] == s.responseList.items[k]
  {
    var items := s.responseList.items;
    var items' := if Truthy(responseBool) then items[actionId := ResponseRecord(payload, actionId)]
                  else items - {actionId};
    s.(responseList := s.responseList.(items := items'))
  }

  /** Deleting a response that is not there changes nothing. */
  lemma DeleteMissingResponse(s: ActionsState, actionId: string, responseBool: Value, payload: Record)
    requires !Truthy(responseBool) && actionId !in s.responseList.items
    ensures UpdateResponseFulfilled(s, actionId, responseBool, payload) == s
  {
  }

  // ---------------------------------------------------------------------
  // The reducer table and an invariant of every reachable state

  datatype ActionsAction =
    | RetrieveActionsPendingAction
    | RetrieveActionsFulfilledAction(batch: seq<Record>, orgId: Value)
    | UpdateActionResponseFulfilledAction(actionId: string, responseBool: Value, payload: Record)

  function Reduce(s: ActionsState, a: ActionsAction): ActionsState
  {
    match a
    case RetrieveActionsPendingAction => RetrieveActionsPending(s)
    case RetrieveActionsFulfilledAction(batch, orgId) => ActionsFetched(s, batch, orgId)
    case UpdateActionResponseFulfilledAction(actionId, responseBool, payload) =>
      UpdateResponseFulfilled(s, actionId, responseBool, payload)
  }

  function Run(s: ActionsState, actions: seq<ActionsAction>): ActionsState
    decreases |actions|
  {
    if actions == [] then s else Run(Reduce(s, actions[0]), actions[1..])
  }

  /** Every stored action carries an organisation id, and every stored
      response names the action it is filed under. */
  ghost predicate Invariant(s: ActionsState)
  {
    && (s.actionList.items.Some? ==>
          forall k :: k in s.actionList.items.value ==> "org_id" in s.actionList.items.value[k])
    && (forall k :: k in s.responseList.items ==>
          "action_id" in s.responseList.items[k] && s.responseList.items[k]["action_id"] == Str(k))
  }

  /** The store starts with no action list fetched, no responses, and
      nothing pending or failed; that state keeps the invariant. */
  lemma InitialStateIsEmpty()
    ensures InitialState.actionList.items.None? && InitialState.responseList.items == map[]
    ensures !InitialState.actionList.isPending && !InitialState.responseList.isPending
    ensures InitialState.actionList.error == Null && InitialState.responseList.error == Null
    ensures Invariant(InitialState)
  {
  }

  lemma ReducePreservesInvariant(s: ActionsState, a: ActionsAction)
    requires Invariant(s)
    ensures Invariant(Reduce(s, a))
  {
    match a
    case RetrieveActionsFulfilledAction(batch, orgId) =>
      TaggedBatchCarriesOrgId(batch, orgId);
    case _ =>
  }

  lemma {:induction false} ReachableStatesKeepInvariant(actions: seq<ActionsAction>)
    ensures Invariant(Run(InitialState, actions))
  {
    RunPreservesInvariant(InitialState, actions);
  }

  lemma {:induction false} RunPreservesInvariant(s: ActionsState, actions: seq<ActionsAction>)
    requires Invariant(s)
    ensures Invariant(Run(s, actions))
    decreases |actions|
  {
    if actions != [] {
      ReducePreservesInvariant(s, actions[0]);
      RunPreservesInvariant(Reduce(s, actions[0]), actions[1..]);
    }
  }
}
