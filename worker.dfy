/** The worker half of the form-state synchronisation protocol (blocks/form/rules/RuleEngineWorker.js).

    The worker owns a rule-engine runtime and reports to the main thread by posting messages;
    here `postMessage` appends to the `outbox` field. The runtime itself (form construction,
    `getState`, `importData`, `waitForPromises`) and the prefill fetch are outside the model:
    their results are parameters, and the calls the worker makes to them are recorded. */
module RuleEngineWorker {
  import opened Js

  /** What the rule-engine runtime delivers to the worker's two subscriptions. */
  datatype Event =
    | FieldChanged(payload: Value)   // a 'fieldChanged' event
    | FormChanged(payload: Value)    // a form-level 'change' event

  /** A message posted to the main thread; each constructor stands for one `name`. */
  datatype Message =
    | InitResponse(state: Value)                                // 'init'
    | RestoreState(state: Value, fieldChanges: seq<Value>)      // 'restoreState'
    | ApplyRestoreBatchedFieldChanges(fieldChanges: seq<Value>) // 'applyRestoreBatchedFieldChanges'
    | SyncComplete                                              // 'sync-complete'
    | ApplyLiveFieldChange(payload: Value)                      // 'applyLiveFieldChange'
    | ApplyLiveFormChange(payload: Value)                       // 'applyLiveFormChange'
    | Dispatched(msg: Value)                                    // whatever the runtime dispatches

  /** The payload of the `init` command, kept by the worker as `initPayload`. */
  datatype InitPayload = InitPayload(id: Value, search: Value, properties: Value)

  /** The synchronisation phase that the two flags of RuleEngine encode. */
  datatype Phase = PreRestore | PostRestorePending | Live

  // ---------------------------------------------------------------------------
  // Event and message streams

  /** The payloads of the field-change events in `evs`, in arrival order. */
  function FieldPayloads(evs: seq<Event>): (r: seq<Value>)
    ensures |r| <= |evs|
  {
    if evs == [] then []
    else (if evs[0].FieldChanged? then [evs[0].payload] else []) + FieldPayloads(evs[1..])
  }

  /** The payloads of the form-level change events in `evs`, in arrival order. */
  function FormPayloads(evs: seq<Event>): (r: seq<Value>)
    ensures |r| <= |evs|
  {
    if evs == [] then []
    else (if evs[0].FormChanged? then [evs[0].payload] else []) + FormPayloads(evs[1..])
  }

  /** The message the live phase posts for one event. */
  function LiveMessage(e: Event): Message {
    match e
    case FieldChanged(p) => ApplyLiveFieldChange(p)
    case FormChanged(p) => ApplyLiveFormChange(p)
  }

  /** The messages the live phase posts for `evs`: one per event, in arrival order. */
  function LiveMessages(evs: seq<Event>): (r: seq<Message>)
    ensures |r| == |evs|
    ensures forall i :: 0 <= i < |evs| ==> r[i] == LiveMessage(evs[i])
  {
    if evs == [] then [] else [LiveMessage(evs[0])] + LiveMessages(evs[1..])
  }

  lemma AppendAssoc<T>(a: seq<T>, b: seq<T>, c: seq<T>)
    ensures (a + b) + c == a + (b + c)
  {
  }

  lemma {:induction false} PayloadsAppend(a: seq<Event>, b: seq<Event>)
    ensures FieldPayloads(a + b) == FieldPayloads(a) + FieldPayloads(b)
    ensures FormPayloads(a + b) == FormPayloads(a) + FormPayloads(b)
  {
    if a != [] {
      assert (a + b)[0] == a[0] && (a + b)[1..] == a[1..] + b;
      PayloadsAppend(a[1..], b);
    } else {
      assert a + b == b;
    }
  }

  lemma {:induction false} LiveMessagesAppend(a: seq<Event>, b: seq<Event>)
    ensures LiveMessages(a + b) == LiveMessages(a) + LiveMessages(b)
  {
    if a != [] {
      assert (a + b)[0] == a[0] && (a + b)[1..] == a[1..] + b;
      LiveMessagesAppend(a[1..], b);
    } else {
      assert a + b == b;
    }
  }

  /** The field-change payloads one message carries. */
  function CarriedFieldChanges(m: Message): seq<Value> {
    match m
    case RestoreState(_, fcs) => fcs
    case ApplyRestoreBatchedFieldChanges(fcs) => fcs
    case ApplyLiveFieldChange(p) => [p]
    case _ => []
  }

  /** The form-level change payloads one message carries. */
  function CarriedFormChanges(m: Message): seq<Value> {
    if m.ApplyLiveFormChange? then [m.payload] else []
  }

  /** Every field-change payload that a stream of messages carries to the main thread,
      in the order the main thread receives them. */
  function DeliveredFieldChanges(out: seq<Message>): seq<Value> {
    if out == [] then [] else CarriedFieldChanges(out[0]) + DeliveredFieldChanges(out[1..])
  }

  /** Every form-level change payload that a stream of messages carries, in order. */
  function DeliveredFormChanges(out: seq<Message>): seq<Value> {
    if out == [] then [] else CarriedFormChanges(out[0]) + DeliveredFormChanges(out[1..])
  }

  lemma DeliveredCons(m: Message, rest: seq<Message>)
    ensures DeliveredFieldChanges([m] + rest) == CarriedFieldChanges(m) + DeliveredFieldChanges(rest)
    ensures DeliveredFormChanges([m] + rest) == CarriedFormChanges(m) + DeliveredFormChanges(rest)
  {
    assert ([m] + rest)[1..] == rest;
  }

  lemma DeliveredSingle(m: Message)
    ensures DeliveredFieldChanges([m]) == CarriedFieldChanges(m)
    ensures DeliveredFormChanges([m]) == CarriedFormChanges(m)
  {
    assert [m][1..] == [];
  }

  lemma {:induction false} DeliveredAppend(a: seq<Message>, b: seq<Message>)
    ensures DeliveredFieldChanges(a + b) == DeliveredFieldChanges(a) + DeliveredFieldChanges(b)
    ensures DeliveredFormChanges(a + b) == DeliveredFormChanges(a) + DeliveredFormChanges(b)
  {
    if a != [] {
      assert (a + b)[0] == a[0] && (a + b)[1..] == a[1..] + b;
      DeliveredAppend(a[1..], b);
    } else {
      assert a + b == b;
    }
  }

  /** Streaming events live loses, duplicates and reorders none of them. */
  lemma {:induction false} LiveMessagesDeliver(evs: seq<Event>)
    ensures DeliveredFieldChanges(LiveMessages(evs)) == FieldPayloads(evs)
    ensures DeliveredFormChanges(LiveMessages(evs)) == FormPayloads(evs)
  {
    if evs != [] {
      LiveMessagesDeliver(evs[1..]);
      DeliveredAppend([LiveMessage(evs[0])], LiveMessages(evs[1..]));
      DeliveredSingle(LiveMessage(evs[0]));
    }
  }

  // ---------------------------------------------------------------------------
  // The worker's state

  /** The `RuleEngine` object together with the worker globals it works with
      (`initPayload` and the `postMessage` channel). */
  class RuleEngine {
    /** The `init` command's payload (the worker's `initPayload`). */
    const initPayload: InitPayload
    /** `form.properties` of the rule-engine runtime the constructor creates. */
    const formProperties: Value

    var fieldChanges: seq<Value>
    var postRestoreFieldChanges: seq<Value>
    var postRestoreCompleteSent: bool
    var restoreSent: bool
    /** Every message posted so far, oldest first. */
    var outbox: seq<Message>

    function CurrentPhase(): Phase
      reads this
    {
      if postRestoreCompleteSent then Live else if restoreSent then PostRestorePending else PreRestore
    }

    /** The `init` command: build the engine and its subscriptions, then post the initial
        snapshot `state` (the runtime's `getState(true)`). */
    constructor (payload: InitPayload, formProperties: Value, state: Value)
      ensures initPayload == payload && this.formProperties == formProperties
      ensures fieldChanges == [] && postRestoreFieldChanges == []
      ensures !postRestoreCompleteSent && !restoreSent && CurrentPhase() == PreRestore
      ensures outbox == [InitResponse(state)]
    {
      initPayload := payload;
      this.formProperties := formProperties;
      fieldChanges := [];
      postRestoreFieldChanges := [];
      postRestoreCompleteSent := false;
      restoreSent := false;
      outbox := [InitResponse(state)];
    }

    /** `handleFieldChanged`: route one field-change payload by phase. */
    method OnFieldChanged(payload: Value)
      modifies this`fieldChanges, this`postRestoreFieldChanges, this`outbox
      ensures old(CurrentPhase()) == Live ==>
        && outbox == old(outbox) + [ApplyLiveFieldChange(payload)]
        && fieldChanges == old(fieldChanges) && postRestoreFieldChanges == old(postRestoreFieldChanges)
      ensures old(CurrentPhase()) == PostRestorePending ==>
        && postRestoreFieldChanges == old(postRestoreFieldChanges) + [payload]
        && fieldChanges == old(fieldChanges) && outbox == old(outbox)
      ensures old(CurrentPhase()) == PreRestore ==>
        && fieldChanges == old(fieldChanges) + [payload]
        && postRestoreFieldChanges == old(postRestoreFieldChanges) && outbox == old(outbox)
    {
      if postRestoreCompleteSent {
        outbox := outbox + [ApplyLiveFieldChange(payload)];
      } else if restoreSent {
        postRestoreFieldChanges := postRestoreFieldChanges + [payload];
      } else {
        fieldChanges := fieldChanges + [payload];
      }
    }

    /** The form-level `change` subscription: forwarded only in the live phase. */
    method OnFormChange(payload: Value)
      modifies this`outbox
      ensures outbox == old(outbox) + (if postRestoreCompleteSent then [ApplyLiveFormChange(payload)] else [])
    {
      if postRestoreCompleteSent {
        outbox := outbox + [ApplyLiveFormChange(payload)];
      }
    }

    /** One event from the runtime, routed to the handler subscribed to its kind. */
    method Receive(e: Event)
      modifies this`fieldChanges, this`postRestoreFieldChanges, this`outbox
      ensures fieldChanges
        == old(fieldChanges) + (if CurrentPhase() == PreRestore then FieldPayloads([e]) else [])
      ensures postRestoreFieldChanges
        == old(postRestoreFieldChanges) + (if CurrentPhase() == PostRestorePending then FieldPayloads([e]) else [])
      ensures outbox == old(outbox) + (if CurrentPhase() == Live then LiveMessages([e]) else [])
    {
      assert [e][1..] == [];
      if e.FieldChanged? {
        OnFieldChanged(e.payload);
      } else {
        OnFormChange(e.payload);
      }
    }

    /** The events the runtime delivers while the worker is suspended at an `await`
        (or between commands), handed to the subscriptions one at a time. The flags do not
        change, so every field change goes to the buffer of the current phase, or, when live,
        every event is posted. */
    method Deliver(evs: seq<Event>)
      modifies this`fieldChanges, this`postRestoreFieldChanges, this`outbox
      ensures fieldChanges
        == old(fieldChanges) + (if CurrentPhase() == PreRestore then FieldPayloads(evs) else [])
      ensures postRestoreFieldChanges
        == old(postRestoreFieldChanges) + (if CurrentPhase() == PostRestorePending then FieldPayloads(evs) else [])
      ensures outbox == old(outbox) + (if CurrentPhase() == Live then LiveMessages(evs) else [])
    {
      var i := 0;
      while i < |evs|
        invariant 0 <= i <= |evs|
        invariant fieldChanges
          == old(fieldChanges) + (if CurrentPhase() == PreRestore then FieldPayloads(evs[..i]) else [])
        invariant postRestoreFieldChanges
          == old(postRestoreFieldChanges) + (if CurrentPhase() == PostRestorePending then FieldPayloads(evs[..i]) else [])
        invariant outbox == old(outbox) + (if CurrentPhase() == Live then LiveMessages(evs[..i]) else [])
      {
        var e := evs[i];
        ghost var pre, next := evs[..i], [e];
        assert evs[..i + 1] == pre + next;
        PayloadsAppend(pre, next);
        LiveMessagesAppend(pre, next);
        ghost var phase := CurrentPhase();
        AppendAssoc(old(fieldChanges), if phase == PreRestore then FieldPayloads(pre) else [],
                    if phase == PreRestore then FieldPayloads(next) else []);
        AppendAssoc(old(postRestoreFieldChanges), if phase == PostRestorePending then FieldPayloads(pre) else [],
                    if phase == PostRestorePending then FieldPayloads(next) else []);
        AppendAssoc(old(outbox), if phase == Live then LiveMessages(pre) else [],
                    if phase == Live then LiveMessages(next) else []);
        Receive(e);
        i := i + 1;
      }
      assert evs[..i] == evs;
    }

    /** `getFieldChanges`: the pre-restore buffer itself, which restoreState carries. */
    function GetFieldChanges(): (r: seq<Value>)
      reads this
      ensures r == fieldChanges
    {
      fieldChanges
    }

    /** `getCustomFunctionsPath`: the configured path when it is truthy, else the default. */
    function GetCustomFunctionsPath(): (r: Value)
      reads this
      ensures Truthy(r)
      ensures Truthy(Get(formProperties, "customFunctionsPath")) ==> r == Get(formProperties, "customFunctionsPath")
      ensures !Truthy(Get(formProperties, "customFunctionsPath")) ==> r == Str("../functions.js")
    {
      var configured := Get(formProperties, "customFunctionsPath");
      if Truthy(configured) then configured else Str("../functions.js")
    }

    /** The dispatch hook installed after `init`: forward a runtime message unchanged. */
    method Dispatch(msg: Value)
      modifies this`outbox
      ensures outbox == old(outbox) + [Dispatched(msg)]
    {
      outbox := outbox + [Dispatched(msg)];
    }

    /** `decorated`, first part: call `fetchData(id, search)` only when `fd:formDataEnabled`
        is exactly `true`, and pass what the fetch resolved to (`fetched`) to
        `form.importData` only when it is truthy. `fetch` and `imported` are the arguments
        of those two calls, None when a call is not made. */
    method Prefill(fetched: Value) returns (fetch: Option<(Value, Value)>, imported: Option<Value>)
      ensures fetch.Some? <==> Get(initPayload.properties, "fd:formDataEnabled") == Bool(true)
      ensures fetch.Some? ==> fetch.value == (initPayload.id, initPayload.search)
      ensures imported.Some? <==> fetch.Some? && Truthy(fetched)
      ensures imported.Some? ==> imported.value == fetched
    {
      var needsPrefill := Get(initPayload.properties, "fd:formDataEnabled") == Bool(true);
      var data := Null;
      fetch, imported := None, None;
      if needsPrefill {
        fetch := Some((initPayload.id, initPayload.search));
        data := fetched;
      }
      if Truthy(data) {
        imported := Some(data);
      }
    }

    /** `decorated`, once the runtime's promises have settled: post the snapshot `state`
        (the runtime's `getState(true)`) with the pre-restore buffer, then start collecting
        into the post-restore buffer. */
    method BeginRestore(state: Value)
      modifies this`outbox, this`restoreSent
      ensures outbox == old(outbox) + [RestoreState(state, fieldChanges)]
      ensures restoreSent
    {
      outbox := outbox + [RestoreState(state, GetFieldChanges())];
      restoreSent := true;
    }

    /** `decorated`, after the zero-delay yield: post the post-restore batch, go live, empty
        the batch and post `sync-complete`. */
    method FinishRestore()
      modifies this`outbox, this`restoreSent, this`postRestoreCompleteSent, this`postRestoreFieldChanges
      ensures outbox == old(outbox) + [ApplyRestoreBatchedFieldChanges(old(postRestoreFieldChanges)), SyncComplete]
      ensures postRestoreCompleteSent && !restoreSent && postRestoreFieldChanges == []
      ensures CurrentPhase() == Live
    {
      outbox := outbox + [ApplyRestoreBatchedFieldChanges(postRestoreFieldChanges)];
      postRestoreCompleteSent := true;
      restoreSent := false;
      postRestoreFieldChanges := [];
      outbox := outbox + [SyncComplete];
    }

    /** The whole `decorated` handler. `whileSettling` arrive while the prefill fetch and
        `waitForPromises` are awaited, `duringYield` during `setTimeout(r, 0)`; `restored` is
        the snapshot `getState()` returns once the promises have settled. Started before the
        restore, the handler posts the restore snapshot with every field change buffered so
        far, then the batch of changes that arrived during the yield, then `sync-complete`,
        and leaves the worker live. */
    method Decorated(fetched: Value, whileSettling: seq<Event>, restored: Value, duringYield: seq<Event>)
      returns (fetch: Option<(Value, Value)>, imported: Option<Value>)
      modifies this`fieldChanges, this`postRestoreFieldChanges, this`outbox, this`restoreSent,
               this`postRestoreCompleteSent
      ensures fetch.Some? <==> Get(initPayload.properties, "fd:formDataEnabled") == Bool(true)
      ensures fetch.Some? ==> fetch.value == (initPayload.id, initPayload.search)
      ensures imported.Some? <==> fetch.Some? && Truthy(fetched)
      ensures imported.Some? ==> imported.value == fetched
      ensures old(CurrentPhase()) == PreRestore ==>
        && fieldChanges == old(fieldChanges) + FieldPayloads(whileSettling)
        && outbox == old(outbox) + [RestoreState(restored, fieldChanges),
                                    ApplyRestoreBatchedFieldChanges(old(postRestoreFieldChanges) + FieldPayloads(duringYield)),
                                    SyncComplete]
      ensures postRestoreFieldChanges == [] && CurrentPhase() == Live
    {
      ghost var wasPreRestore := CurrentPhase() == PreRestore;
      fetch, imported := Prefill(fetched);
      Deliver(whileSettling);
      assert wasPreRestore ==>
        (CurrentPhase() == PreRestore && outbox == old(outbox)
         && postRestoreFieldChanges == old(postRestoreFieldChanges));
      BeginRestore(restored);
      ghost var restoreMessage := RestoreState(restored, fieldChanges);
      assert wasPreRestore ==> CurrentPhase() == PostRestorePending && outbox == old(outbox) + [restoreMessage];
      Deliver(duringYield);
      assert wasPreRestore ==>
        (outbox == old(outbox) + [restoreMessage]
         && postRestoreFieldChanges == old(postRestoreFieldChanges) + FieldPayloads(duringYield));
      ghost var restoredOutbox, batch := outbox, postRestoreFieldChanges;
      FinishRestore();
      assert outbox == restoredOutbox + [ApplyRestoreBatchedFieldChanges(batch), SyncComplete];
    }
  }

  // ---------------------------------------------------------------------------
  // One session: init, then decorated, with events arriving at every suspension point

  /** The messages one session posts: the initial snapshot, the restore snapshot with every
      change from before the restore, the batch of changes from the yield, the end marker,
      then one live message per later event. */
  function SessionOutbox(initState: Value, preRestore: seq<Event>, restored: Value,
                         duringYield: seq<Event>, live: seq<Event>): seq<Message>
  {
    SessionHead(initState, preRestore, restored, duringYield) + LiveMessages(live)
  }

  /** The four messages a session posts before the live ones. */
  function SessionHead(initState: Value, preRestore: seq<Event>, restored: Value,
                       duringYield: seq<Event>): seq<Message>
  {
    [InitResponse(initState), RestoreState(restored, FieldPayloads(preRestore)),
     ApplyRestoreBatchedFieldChanges(FieldPayloads(duringYield)), SyncComplete]
  }

  lemma SessionHeadDelivers(initState: Value, preRestore: seq<Event>, restored: Value,
                            duringYield: seq<Event>)
    ensures DeliveredFieldChanges(SessionHead(initState, preRestore, restored, duringYield))
            == FieldPayloads(preRestore) + FieldPayloads(duringYield)
    ensures DeliveredFormChanges(SessionHead(initState, preRestore, restored, duringYield)) == []
  {
    var m0, m1, m2, m3 := InitResponse(initState), RestoreState(restored, FieldPayloads(preRestore)),
                          ApplyRestoreBatchedFieldChanges(FieldPayloads(duringYield)), SyncComplete;
    assert SessionHead(initState, preRestore, restored, duringYield) == [m0] + ([m1] + ([m2] + [m3]));
    DeliveredCons(m0, [m1] + ([m2] + [m3]));
    DeliveredCons(m1, [m2] + [m3]);
    DeliveredCons(m2, [m3]);
    DeliveredSingle(m3);
  }

  /** Runs `init` and then `decorated`. `beforeDecorated` arrive between the two commands,
      `whileSettling` while the prefill fetch and `waitForPromises` are awaited (including the
      changes importing the prefill data causes), `duringYield` during `setTimeout(r, 0)`,
      and `afterSync` once the handler has finished. */
  method Session(payload: InitPayload, formProperties: Value, initState: Value,
                 beforeDecorated: seq<Event>, fetched: Value, whileSettling: seq<Event>,
                 restored: Value, duringYield: seq<Event>, afterSync: seq<Event>)
    returns (outbox: seq<Message>, fetch: Option<(Value, Value)>, imported: Option<Value>, phase: Phase)
    ensures outbox == SessionOutbox(initState, beforeDecorated + whileSettling, restored, duringYield, afterSync)
    ensures var enabled := Get(payload.properties, "fd:formDataEnabled") == Bool(true);
      && fetch == (if enabled then Some((payload.id, payload.search)) else None)
      && imported == (if enabled && Truthy(fetched) then Some(fetched) else None)
    ensures phase == Live
  {
    var engine := new RuleEngine(payload, formProperties, initState);
    engine.Deliver(beforeDecorated);
    fetch, imported := engine.Decorated(fetched, whileSettling, restored, duringYield);
    PayloadsAppend(beforeDecorated, whileSettling);
    assert engine.fieldChanges == FieldPayloads(beforeDecorated + whileSettling);
    assert [] + FieldPayloads(duringYield) == FieldPayloads(duringYield);
    assert engine.outbox == SessionHead(initState, beforeDecorated + whileSettling, restored, duringYield);
    engine.Deliver(afterSync);
    outbox, phase := engine.outbox, engine.CurrentPhase();
  }

  /** Across a session every field change reaches the main thread exactly once, in arrival
      order, and exactly the form-level changes of the live phase are forwarded. */
  lemma SessionDeliversEveryChangeOnce(initState: Value, preRestore: seq<Event>, restored: Value,
                                       duringYield: seq<Event>, live: seq<Event>)
    ensures DeliveredFieldChanges(SessionOutbox(initState, preRestore, restored, duringYield, live))
            == FieldPayloads(preRestore + duringYield + live)
    ensures DeliveredFormChanges(SessionOutbox(initState, preRestore, restored, duringYield, live))
            == FormPayloads(live)
  {
    var head := SessionHead(initState, preRestore, restored, duringYield);
    var tail := LiveMessages(live);
    assert SessionOutbox(initState, preRestore, restored, duringYield, live) == head + tail;
    SessionHeadDelivers(initState, preRestore, restored, duringYield);
    DeliveredAppend(head, tail);
    LiveMessagesDeliver(live);
    PayloadsAppend(preRestore, duringYield);
    PayloadsAppend(preRestore + duringYield, live);
  }

  /** The restore messages come first and once each, in the order restoreState,
      applyRestoreBatchedFieldChanges, sync-complete; afterwards only live messages follow. */
  lemma SessionMessageOrder(initState: Value, preRestore: seq<Event>, restored: Value,
                            duringYield: seq<Event>, live: seq<Event>)
    ensures var out := SessionOutbox(initState, preRestore, restored, duringYield, live);
      && |out| == 4 + |live|
      && out[1].RestoreState? && out[2].ApplyRestoreBatchedFieldChanges? && out[3] == SyncComplete
      && (forall i :: 0 <= i < |out| && out[i].RestoreState? ==> i == 1)
      && (forall i :: 0 <= i < |out| && out[i].ApplyRestoreBatchedFieldChanges? ==> i == 2)
      && (forall i :: 0 <= i < |out| && out[i] == SyncComplete ==> i == 3)
      && (forall i :: 4 <= i < |out| ==> out[i].ApplyLiveFieldChange? || out[i].ApplyLiveFormChange?)
  {
    var out := SessionOutbox(initState, preRestore, restored, duringYield, live);
    assert forall i :: 4 <= i < |out| ==> out[i] == LiveMessage(live[i - 4]);
  }
}
